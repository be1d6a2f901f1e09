# Cowork booking: nested workspace editing

This project models how the cowork booking system creates, reads, edits
and deletes a workspace together with its rooms and the rooms' devices.
It has two halves, both modelled as pure functions over immutable data:

- **The back end.** This covers the workspace service:
  - the read projection (`GetById`, `GetAll`);
  - the nested create (`CreateWithRooms`);
  - the nested update, a two-level reconciler that diffs the stored rooms and devices against the payload by id (`UpdateWithRooms`);
  - the delete (`Delete`).

  It also covers the validation attributes of the update payloads and the room mapper (`DtoMapper.ToDto`, `DtoMapper.ToEntity`).
- **The Angular front end.** This covers:
  - the admin panel's coordinate patterns and error messages;
  - the enhanced admin panel's room and device form arrays, the editor that loads a workspace into the form, and the two payload builders;
  - the booking form's device toggling and its submit guard.

The database is a `Store`: a map from workspace id to workspace. A workspace
owns a sequence of rooms, and a room owns a sequence of devices. Each of the
three identity tables is a counter, and an inserted row takes the next value.

The properties proved connect the layers:

- A save of a workspace exactly as it is stored is a no-op (`UpdateIdempotence.UpdateWithMirrorIsNoOp`).
- Loading a workspace into the editor and saving it unchanged sends exactly that save (`EditRoundTrip.EditThenSaveIsNoOp`).
- Every write keeps the store well formed, with distinct ids, correct back-references and ids below the counters.
- The reconciled room list is exactly:
  - the stored rooms some entry names, each reconciled with that entry;
  - followed by one new room per unidentified entry.
- The mapper's two round trips lose exactly the navigation properties.
- Every text a coordinate pattern accepts denotes a decimal strictly inside (-91, 91) for latitude or (-180, 180) for longitude. The corrected latitude pattern accepts exactly the original's texts whose value lies in [-90, 90].

Modules follow the program: `Entities`, `Dtos`, `Payloads` (the update and
create payloads and their validity), `WorkSpaceService`, `DtoMapper`,
`AdminPanel`, `AdminPanelEnhanced`, `BookingForm`. The proofs about the
service sit in `CreateProperties`, `ReconcileProperties`,
`UpdateIdempotence`, `StoredFlags` and `PayloadBounds`. `EditRoundTrip`
joins the editor to the service. `Text`, `Coordinates` and `FormControls`
model the string helpers, the two regular expressions and Angular's
validators.

The nested update writes each room's stored `HasDevices` column from the
payload's device list (WorkSpaceService.cs line 216), not from the devices
the room ends up with. Everywhere else in the service the column means
"the room has devices": both create paths set it from a list that becomes
the room's devices one for one (lines 131 and 260), and both reads report
exactly that from the devices themselves (lines 41 and 78).
`WorkSpaceService.UpdateWithRooms` does what line 216 does; the resulting
stale column is logged under Findings, and
`StoredFlags.UpdateWithRoomsFixed` is the update with the column
recomputed from the final devices, agreeing with the rest of the service.

## Model

| member | source | states |
|---|---|---|
| WorkSpaceService.ProjectRoom | BackEnd/CoworkBooking.Application/Services/WorkSpaceService.cs:72-87 | a read reports the room's id, name, capacity, price and workspace id as stored, with no nested workspace; it reports that the room has devices exactly when its device list is non-empty, whatever the stored column says; the devices are projected one for one, in order |
| WorkSpaceService.Project | BackEnd/CoworkBooking.Application/Services/WorkSpaceService.cs:63-88 | a workspace read reports the stored id, name, description, address, city and coordinates, and lists one projected room per stored room, in stored order |
| WorkSpaceService.GetById | BackEnd/CoworkBooking.Application/Services/WorkSpaceService.cs:54-89 | absence, not an error, exactly when no workspace has the id; otherwise the full projection of the stored workspace |
| WorkSpaceService.GetAll | BackEnd/CoworkBooking.Application/Services/WorkSpaceService.cs:19-52 | one entry per stored workspace and nothing else, each the same projection a read by id returns |
| WorkSpaceService.NewDevices | BackEnd/CoworkBooking.Application/Services/WorkSpaceService.cs:135-145 | one device per device entry, in order, with the entry's name and cost, the room's id, and consecutive fresh ids |
| WorkSpaceService.NewRoom | BackEnd/CoworkBooking.Application/Services/WorkSpaceService.cs:126-147 | a new room takes the entry's fields and the given fresh id; its flag holds exactly when it received devices; the device counter advances by the number of device entries (none for a null list) |
| WorkSpaceService.NewRooms | BackEnd/CoworkBooking.Application/Services/WorkSpaceService.cs:122-149 | one room per room entry, with consecutive fresh room ids; the device counter never goes back |
| WorkSpaceService.CreateWithRooms | BackEnd/CoworkBooking.Application/Services/WorkSpaceService.cs:109-156 | the new workspace takes the next id and the payload's scalars; the answer is what a read of that id returns; every other workspace is untouched and the counters only advance |
| WorkSpaceService.KeepDevices | BackEnd/CoworkBooking.Application/Services/WorkSpaceService.cs:221-227 | the devices left after the removal all carry an id the payload lists, and there are no more of them than before |
| WorkSpaceService.OverwriteDevice | BackEnd/CoworkBooking.Application/Services/WorkSpaceService.cs:236-237 | a matched device keeps its id and room and takes the entry's name and cost |
| WorkSpaceService.UpdateExistingDevice | BackEnd/CoworkBooking.Application/Services/WorkSpaceService.cs:231-239 | an identified device entry never adds, removes or re-homes a device; an id the room does not own changes nothing |
| WorkSpaceService.ApplyDeviceEntry | BackEnd/CoworkBooking.Application/Services/WorkSpaceService.cs:229-248 | an identified entry leaves the added devices and the counter alone; an unidentified one appends exactly one fresh device with the entry's fields and advances the counter by one |
| WorkSpaceService.ApplyDeviceEntries | BackEnd/CoworkBooking.Application/Services/WorkSpaceService.cs:229-248 | the device loop keeps the ids of the stored devices and adds one fresh id per unidentified entry, consecutively |
| WorkSpaceService.ReconcileDevices | BackEnd/CoworkBooking.Application/Services/WorkSpaceService.cs:219-249 | a room's devices after the update are the kept stored devices followed by one fresh device per unidentified entry |
| WorkSpaceService.KeepRooms | BackEnd/CoworkBooking.Application/Services/WorkSpaceService.cs:195-202 | the rooms left after the removal all carry an id the payload lists |
| WorkSpaceService.ReconcileRoom | BackEnd/CoworkBooking.Application/Services/WorkSpaceService.cs:210-250 | a matched room keeps its id and workspace and takes the entry's scalars; its stored flag is taken from the entry's device list; a null device list leaves its devices alone |
| WorkSpaceService.UpdateExistingRoom | BackEnd/CoworkBooking.Application/Services/WorkSpaceService.cs:207-251 | an identified room entry never adds or removes a room; an id the workspace does not own changes nothing |
| WorkSpaceService.ApplyRoomEntry | BackEnd/CoworkBooking.Application/Services/WorkSpaceService.cs:205-251 | one iteration of the room loop keeps the stored room ids and their workspace, and an unidentified entry does not touch the stored rooms |
| WorkSpaceService.ApplyRoomEntries | BackEnd/CoworkBooking.Application/Services/WorkSpaceService.cs:205-251 | the room loop keeps the stored room ids and their workspace, and the device counter only advances |
| WorkSpaceService.AddedRooms | BackEnd/CoworkBooking.Application/Services/WorkSpaceService.cs:252-277 | one new room per unidentified room entry, with consecutive fresh room ids |
| WorkSpaceService.ReconcileRooms | BackEnd/CoworkBooking.Application/Services/WorkSpaceService.cs:192-279 | a workspace's rooms after the update are the kept stored rooms followed by one fresh room per unidentified entry |
| WorkSpaceService.UpdateWithRooms | BackEnd/CoworkBooking.Application/Services/WorkSpaceService.cs:173-285 | an unknown id fails with the not-found error and changes nothing; otherwise the scalars are overwritten, a null room list leaves the rooms alone, every other workspace is untouched, and the answer is what a read returns |
| WorkSpaceService.Delete | BackEnd/CoworkBooking.Application/Services/WorkSpaceService.cs:287-299 | the workspace is gone, with its rooms and devices, and a read finds nothing; every other workspace is untouched; an unknown id is a no-op |
| CreateProperties.NewRoomsContent | BackEnd/CoworkBooking.Application/Services/WorkSpaceService.cs:122-149 | the j-th new room is what the j-th entry describes, with the j-th fresh room id, and fresh device ids from the range the builder used |
| CreateProperties.NewRoomsWellFormed | BackEnd/CoworkBooking.Application/Services/WorkSpaceService.cs:122-149 | new rooms have distinct ids and correct back-references, and their flags agree with their devices |
| CreateProperties.CreateWithRoomsContent | BackEnd/CoworkBooking.Application/Services/WorkSpaceService.cs:109-156 | on a well-formed store, the new id was free, and the workspace holds one room per requested room, in order, each as its entry describes |
| CreateProperties.CreateWithRoomsWellFormed | BackEnd/CoworkBooking.Application/Services/WorkSpaceService.cs:109-156 | creating keeps the store well formed |
| ReconcileProperties.KeepDevicesMembership | BackEnd/CoworkBooking.Application/Services/WorkSpaceService.cs:221-227 | a device survives the removal exactly when it was stored and its id is listed |
| ReconcileProperties.KeepRoomsMembership | BackEnd/CoworkBooking.Application/Services/WorkSpaceService.cs:195-202 | a room survives the removal exactly when it was stored and its id is listed |
| ReconcileProperties.RoomSurvivesIffListed | BackEnd/CoworkBooking.Application/Services/WorkSpaceService.cs:192-202 | after the update, a stored room is still there exactly when some room entry carries its id |
| ReconcileProperties.LastDeviceEntry | BackEnd/CoworkBooking.Application/Services/WorkSpaceService.cs:229-238 | the entry that settles a device carries its id, and there is one exactly when some entry carries that id |
| ReconcileProperties.KeepDevicesNoDup | BackEnd/CoworkBooking.Application/Services/WorkSpaceService.cs:221-227 | removing devices keeps their ids distinct |
| ReconcileProperties.UpdateExistingDeviceAt | BackEnd/CoworkBooking.Application/Services/WorkSpaceService.cs:233-238 | with distinct ids, an identified entry overwrites exactly the device carrying its id |
| ReconcileProperties.ApplyDeviceEntriesKept | BackEnd/CoworkBooking.Application/Services/WorkSpaceService.cs:229-239 | after the device loop each kept device is overwritten by the last entry carrying its id, or untouched when none does |
| ReconcileProperties.ApplyDeviceEntriesAdded | BackEnd/CoworkBooking.Application/Services/WorkSpaceService.cs:240-247 | the devices the loop adds are exactly those the create path builds for the unidentified entries, in payload order |
| ReconcileProperties.ReconcileDevicesContent | BackEnd/CoworkBooking.Application/Services/WorkSpaceService.cs:219-249 | a matched room's devices are the listed stored devices, in stored order, each settled by its last entry, then one fresh device per unidentified entry |
| ReconcileProperties.ReconcileDevicesWellFormed | BackEnd/CoworkBooking.Application/Services/WorkSpaceService.cs:219-249 | after reconciling, devices have distinct ids, point at the room and lie below the counter |
| ReconcileProperties.ReconcileRoomWellFormed | BackEnd/CoworkBooking.Application/Services/WorkSpaceService.cs:210-250 | a matched room stays well formed |
| ReconcileProperties.ReconcileRoomsWellFormed | BackEnd/CoworkBooking.Application/Services/WorkSpaceService.cs:192-279 | after reconciling, rooms have distinct ids, point at the workspace, and they and their devices lie below the counters |
| ReconcileProperties.UpdateWithRoomsWellFormed | BackEnd/CoworkBooking.Application/Services/WorkSpaceService.cs:173-285 | the nested update keeps the store well formed |
| ReconcileProperties.RoomEntryFor | BackEnd/CoworkBooking.Application/Services/WorkSpaceService.cs:207-210 | the entry for a stored room carries its id, and there is one exactly when the id is listed |
| ReconcileProperties.UpdateExistingRoomAt | BackEnd/CoworkBooking.Application/Services/WorkSpaceService.cs:210-216 | with distinct ids, an identified entry reconciles exactly the room carrying its id |
| ReconcileProperties.ApplyRoomEntriesKept | BackEnd/CoworkBooking.Application/Services/WorkSpaceService.cs:205-251 | after the room loop, each kept room is reconciled with the entry naming it |
| ReconcileProperties.ReconcileRoomsKept | BackEnd/CoworkBooking.Application/Services/WorkSpaceService.cs:192-251 | the first part of the new room list holds the kept stored rooms, each reconciled with its entry |
| ReconcileProperties.ReconcileRoomsAdded | BackEnd/CoworkBooking.Application/Services/WorkSpaceService.cs:252-277 | the rest of the room list has one room per unidentified entry, as the create path builds it, with consecutive fresh ids; the device ids inside the entry are ignored |
| ReconcileProperties.ReconcileRoomsContent | BackEnd/CoworkBooking.Application/Services/WorkSpaceService.cs:192-279 | the whole room list is the named stored rooms, each reconciled with its entry, then the new rooms; an entry whose id names no stored room adds nothing |
| UpdateIdempotence.ReconcileMirrorDevices | BackEnd/CoworkBooking.Application/Services/WorkSpaceService.cs:219-249 | reconciling devices with a payload that lists them as stored changes nothing and draws no id |
| UpdateIdempotence.ReconcileMirrorRoom | BackEnd/CoworkBooking.Application/Services/WorkSpaceService.cs:210-250 | a room whose flag agrees with its devices is unchanged by its own mirror entry |
| UpdateIdempotence.ReconcileMirrorRooms | BackEnd/CoworkBooking.Application/Services/WorkSpaceService.cs:192-279 | reconciling rooms with their own mirror changes nothing and draws no id |
| UpdateIdempotence.UpdateWithMirrorIsNoOp | BackEnd/CoworkBooking.Application/Services/WorkSpaceService.cs:173-285 | saving a workspace exactly as stored leaves the whole store as it was and answers with what a read returns |
| StoredFlags.StaleFlagWithNullDevices | BackEnd/CoworkBooking.Application/Services/WorkSpaceService.cs:216-219 | as written, saving a room with a null device list keeps its device but clears its stored flag, while a read still reports devices |
| StoredFlags.StaleFlagWithUnknownDeviceIds | BackEnd/CoworkBooking.Application/Services/WorkSpaceService.cs:216-227 | as written, saving a room whose device list names only unknown ids deletes every device but sets the stored flag |
| StoredFlags.RecomputeFlags | BackEnd/CoworkBooking.Application/Services/WorkSpaceService.cs:216 | after the recompute, every stored flag agrees with its devices, and nothing a read sees changes; flags that already agree are left alone |
| StoredFlags.UpdateWithRoomsFixed | BackEnd/CoworkBooking.Application/Services/WorkSpaceService.cs:173-285 | the corrected update leaves every room of the edited workspace with a flag that agrees with its devices |
| StoredFlags.FixedUpdateReadsTheSame | BackEnd/CoworkBooking.Application/Services/WorkSpaceService.cs:173-285 | the correction changes no answer, no read, no key and no counter |
| StoredFlags.FixedUpdateInvariant | BackEnd/CoworkBooking.Application/Services/WorkSpaceService.cs:173-285 | the corrected update keeps the store well formed with all flags consistent |
| StoredFlags.CreateKeepsFlagsConsistent | BackEnd/CoworkBooking.Application/Services/WorkSpaceService.cs:131 | creating keeps all flags consistent |
| StoredFlags.DeleteKeepsFlagsConsistent | BackEnd/CoworkBooking.Application/Services/WorkSpaceService.cs:287-299 | deleting keeps all flags consistent |
| PayloadBounds.ReconciledRoomsInBounds | BackEnd/CoworkBooking.Application/DTOs/UpdateRoomDto.cs:8-20 | when every room entry passes its validation attributes, whether or not entries repeat a room id, every reconciled room has a name of at least two non-blank characters, a capacity in 1..1000 and a non-negative price |
| PayloadBounds.ApplyRoomEntriesInBounds | BackEnd/CoworkBooking.Application/Services/WorkSpaceService.cs:205-251 | over valid entries, repeated ids included, the room loop leaves every stored room in bounds, provided each one starts in bounds or is named by an entry still to come |
| PayloadBounds.ValidUpdateKeepsRoomsInBounds | BackEnd/CoworkBooking.Application/DTOs/UpdateWorkSpaceDto.cs:8-30 | a payload that passes validation and carries a room list, repeated room ids allowed, leaves the workspace with a valid name and text, a latitude in [-90.5, 90.5] and a longitude in [-180.5, 180.5] (the integer range attributes round the value first), and every room within the room bounds |
| PayloadBounds.ValidCreateKeepsRoomsInBounds | BackEnd/CoworkBooking.Application/DTOs/CreateRoomDto.cs:8-18 | valid room entries give new rooms within the room bounds |
| Payloads.RoundHalfEven | BackEnd/CoworkBooking.Application/DTOs/UpdateWorkSpaceDto.cs:24-28 | the integer nearest the value, ties going to the even neighbour, as the integer range attributes convert a double |
| Payloads.IntRangeInterval | BackEnd/CoworkBooking.Application/DTOs/UpdateWorkSpaceDto.cs:24-28 | with even bounds, a value rounds into [lo, hi] exactly when it lies in [lo - 0.5, hi + 0.5] |
| Payloads.CoordinateAttributes | BackEnd/CoworkBooking.Application/DTOs/UpdateWorkSpaceDto.cs:24-28 | the latitude attribute accepts exactly [-90.5, 90.5] and the longitude attribute exactly [-180.5, 180.5] |
| Payloads.LatitudeAttributeExamples | BackEnd/CoworkBooking.Application/DTOs/UpdateWorkSpaceDto.cs:24-25 | 90.4, 90.5 and -90.5 pass the latitude attribute and 90.6 does not |
| Payloads.IdentifiedDeviceIds | BackEnd/CoworkBooking.Application/Services/WorkSpaceService.cs:221 | the keep set holds exactly the ids that some device entry carries |
| Payloads.IdentifiedRoomIds | BackEnd/CoworkBooking.Application/Services/WorkSpaceService.cs:195 | the keep set holds exactly the ids that some room entry carries |
| DtoMapper.WorkSpaceHeader | BackEnd/CoworkBooking.Application/Mappings/DtoMapper.cs:19-26 | the nested workspace copies the scalar columns only, with no coordinates and no rooms |
| DtoMapper.ToDto | BackEnd/CoworkBooking.Application/Mappings/DtoMapper.cs:8-35 | null maps to null; the columns are copied, including the stored flag; the nested workspace is present exactly when the navigation is loaded; the device list is null exactly when the collection is null |
| DtoMapper.ToEntity | BackEnd/CoworkBooking.Application/Mappings/DtoMapper.cs:37-49 | null maps to null; the entity has no devices and no navigation |
| DtoMapper.ToDtoDevices | BackEnd/CoworkBooking.Application/Mappings/DtoMapper.cs:27-33 | the mapped devices are the read projection's devices |
| DtoMapper.EntityRoundTrip | BackEnd/CoworkBooking.Application/Mappings/DtoMapper.cs:8-49 | entity to response and back keeps every column and loses only the devices and the navigation |
| DtoMapper.DtoRoundTrip | BackEnd/CoworkBooking.Application/Mappings/DtoMapper.cs:8-49 | response to entity and back keeps every scalar; the nested workspace is dropped and the devices come back empty |
| DtoMapper.ToDtoFlagAgreesWithProjection | BackEnd/CoworkBooking.Application/Mappings/DtoMapper.cs:16 | the mapper's flag equals the read projection's exactly when the stored flag agrees with the devices |
| Text.Utf16Length | BackEnd/CoworkBooking.Application/DTOs/UpdateRoomDto.cs:11 | a string's length in UTF-16 code units lies between its character count and twice that, is zero only for the empty string, and equals the character count when no character lies above U+FFFF |
| Text.AstralCharacterCountsTwice | frontend/cowork-booking/src/app/features/admin-panel/admin-panel-enhanced.component.ts:58 | one character above U+FFFF counts as two toward a minimum length |
| Text.Capitalize | frontend/cowork-booking/src/app/features/admin-panel/admin-panel-enhanced.component.ts:311-313 | same length; the first character upper-cased, the rest unchanged; empty stays empty |
| Text.CapitalizeIdempotent | frontend/cowork-booking/src/app/features/admin-panel/admin-panel-enhanced.component.ts:311-313 | capitalizing twice is capitalizing once, and a string is unchanged exactly when it does not start with a lower-case letter |
| Text.NatToStringRoundTrip | frontend/cowork-booking/src/app/features/admin-panel/admin-panel-enhanced.component.ts:300 | the digits printed for a bound in a message read back as that bound |
| Coordinates.LatitudePatternRange | frontend/cowork-booking/src/app/features/admin-panel/admin-panel.component.ts:41 | text the latitude pattern accepts is a decimal strictly between -91 and 91 |
| Coordinates.LongitudePatternRange | frontend/cowork-booking/src/app/features/admin-panel/admin-panel.component.ts:42 | text the longitude pattern accepts is a decimal strictly between -180 and 180 |
| Coordinates.LatitudeExamples | frontend/cowork-booking/src/app/features/admin-panel/admin-panel.component.ts:41 | "90.5" passes with value 90.5, and so do "90.9" and "-09"; "91", "1." and "-" fail |
| Coordinates.LongitudeExamples | frontend/cowork-booking/src/app/features/admin-panel/admin-panel.component.ts:42 | "180" and "180.0" fail, and "179.9999999999" passes |
| Coordinates.LongitudeRefuses180 | frontend/cowork-booking/src/app/features/admin-panel/admin-panel.component.ts:42 | no text starting with "180" passes the longitude pattern |
| Coordinates.LatitudeFixedIffInRange | frontend/cowork-booking/src/app/features/admin-panel/admin-panel.component.ts:41 | the corrected pattern accepts exactly the texts the original accepts whose value lies in [-90, 90] |
| FormControls.TextErrors | frontend/cowork-booking/src/app/features/admin-panel/admin-panel.component.ts:37-42 | `required` fails only on empty text; `minlength` and `pattern` fail only on non-empty text that is too short or does not match |
| FormControls.NumberErrors | frontend/cowork-booking/src/app/features/admin-panel/admin-panel-enhanced.component.ts:59-60 | `min` fails exactly below the lower bound, and `max` fails exactly above the upper bound |
| AdminPanel.MessageFor | frontend/cowork-booking/src/app/features/admin-panel/admin-panel.component.ts:184-193 | the first of required, minlength and pattern picks the message; the length in the message is always 3; no message exactly when none of them fails |
| AdminPanel.GetErrorMessage | frontend/cowork-booking/src/app/features/admin-panel/admin-panel.component.ts:180-194 | an unknown control has no message; a known one reads "<Field> is required" when required fails, otherwise "<Field> must be at least 3 characters" when minlength fails, otherwise "Invalid <field> format" when the pattern fails, and has no message exactly when it is valid |
| AdminPanel.NameMessages | frontend/cowork-booking/src/app/features/admin-panel/admin-panel.component.ts:184-189 | the name control reads "Name is required" when empty, "Name must be at least 3 characters" below three UTF-16 code units, and nothing otherwise |
| AdminPanel.LatitudeMessages | frontend/cowork-booking/src/app/features/admin-panel/admin-panel.component.ts:190-192 | the latitude control reads "Invalid latitude format" exactly when its text is non-empty and fails the pattern, and nothing otherwise |
| AdminPanel.LongitudeMessages | frontend/cowork-booking/src/app/features/admin-panel/admin-panel.component.ts:190-192 | the longitude control reads "Invalid longitude format" exactly when its text is non-empty and fails the pattern, and nothing otherwise |
| AdminPanel.EmptyNameMessage | frontend/cowork-booking/src/app/features/admin-panel/admin-panel.component.ts:184-186 | an empty name reads "Name is required" |
| AdminPanel.ShortNameMessage | frontend/cowork-booking/src/app/features/admin-panel/admin-panel.component.ts:187-189 | a two-letter name reads "Name must be at least 3 characters" |
| AdminPanel.OutOfRangeLatitudeMessage | frontend/cowork-booking/src/app/features/admin-panel/admin-panel.component.ts:190-192 | "91" reads "Invalid latitude format" |
| AdminPanel.LatitudeAboveNinetyPasses | frontend/cowork-booking/src/app/features/admin-panel/admin-panel.component.ts:41 | "90.5" gets no message; the form posts it in a `WorkSpaceDto`, whose latitude has no range attribute, so the pattern is the only latitude check on that path |
| AdminPanelEnhanced.AddRoom | frontend/cowork-booking/src/app/features/admin-panel/admin-panel-enhanced.component.ts:55-64 | one blank, unidentified room is appended; the existing rooms and the other controls are unchanged |
| AdminPanelEnhanced.AddDevice | frontend/cowork-booking/src/app/features/admin-panel/admin-panel-enhanced.component.ts:72-79 | the call succeeds exactly when the index names a room; then only that room changes, gaining one blank device at the end |
| AdminPanelEnhanced.DeviceGroupsOf | frontend/cowork-booking/src/app/features/admin-panel/admin-panel-enhanced.component.ts:213-222 | one identified device group per projected device, in order; none for a null list |
| AdminPanelEnhanced.EditWorkspace | frontend/cowork-booking/src/app/features/admin-panel/admin-panel-enhanced.component.ts:182-230 | the editor switches to edit mode on the workspace's id, copies its scalars, and holds one identified room group per room, in order |
| AdminPanelEnhanced.EditForgetsPreviousForm | frontend/cowork-booking/src/app/features/admin-panel/admin-panel-enhanced.component.ts:186-189 | the form after editing does not depend on what was there before |
| AdminPanelEnhanced.RoomEntry | frontend/cowork-booking/src/app/features/admin-panel/admin-panel-enhanced.component.ts:163 | a room group reaches the update payload with its id, name, capacity and price, and a device list that is never null, one entry per device group |
| AdminPanelEnhanced.CreateRoomEntry | frontend/cowork-booking/src/app/features/admin-panel/admin-panel-enhanced.component.ts:131 | a room group reaches the create payload with its name, capacity and price and its devices' names and costs, and no ids |
| AdminPanelEnhanced.BuildCreatePayload | frontend/cowork-booking/src/app/features/admin-panel/admin-panel-enhanced.component.ts:122-132 | the create payload carries the form's values and one entry per room group |
| AdminPanelEnhanced.BuildUpdatePayload | frontend/cowork-booking/src/app/features/admin-panel/admin-panel-enhanced.component.ts:150-164 | a payload is built exactly when a non-zero id is selected; it names that id and carries the form's values and rooms |
| AdminPanelEnhanced.AddRoomAddsOneNewEntry | frontend/cowork-booking/src/app/features/admin-panel/admin-panel-enhanced.component.ts:55-64 | a room added in the editor reaches the update payload as exactly one more unidentified entry |
| AdminPanelEnhanced.OnSubmit | frontend/cowork-booking/src/app/features/admin-panel/admin-panel-enhanced.component.ts:105-120 | an invalid form sends nothing; otherwise edit mode sends the update payload to its id, or nothing without an id, and create mode sends the create payload |
| AdminPanelEnhanced.ValidFormPayload | frontend/cowork-booking/src/app/features/admin-panel/admin-panel-enhanced.component.ts:35-45 | a form the client accepts gives a payload the validation attributes accept exactly when no text is blank, the latitude lies in [-90.5, 90.5] and the longitude in [-180.5, 180.5] |
| AdminPanelEnhanced.GetErrorMessage | frontend/cowork-booking/src/app/features/admin-panel/admin-panel-enhanced.component.ts:292-309 | the first of required, minlength, min and max picks the message, which carries the validator's own bound; no message exactly when none of them fails |
| AdminPanelEnhanced.TopLevelMessages | frontend/cowork-booking/src/app/features/admin-panel/admin-panel-enhanced.component.ts:292-309 | on the top-level controls, a message shows exactly when the control is invalid, and the min and max messages never show |
| BookingForm.ToggleDevice | frontend/cowork-booking/src/app/features/booking-form/booking-form.component.ts:105-112 | an unselected id is appended; a selected one loses its first occurrence only |
| BookingForm.IsDeviceSelected | frontend/cowork-booking/src/app/features/booking-form/booking-form.component.ts:114-116 | true exactly when the id is in the selection |
| BookingForm.ToggleMembership | frontend/cowork-booking/src/app/features/booking-form/booking-form.component.ts:105-116 | after a toggle the id is selected exactly when it was not before, and every other id keeps its state |
| BookingForm.ToggleNoDup | frontend/cowork-booking/src/app/features/booking-form/booking-form.component.ts:105-112 | toggling never repeats an id |
| BookingForm.ToggleKeepsSecondCopy | frontend/cowork-booking/src/app/features/booking-form/booking-form.component.ts:106-108 | with an id listed twice, one toggle leaves it selected |
| BookingForm.ToggleTwiceUnselected | frontend/cowork-booking/src/app/features/booking-form/booking-form.component.ts:105-112 | toggling an unselected id twice restores the selection exactly |
| BookingForm.ToggleTwiceSelected | frontend/cowork-booking/src/app/features/booking-form/booking-form.component.ts:105-112 | toggling a selected id twice restores the same selection, up to order |
| BookingForm.ToggleAllParity | frontend/cowork-booking/src/app/features/booking-form/booking-form.component.ts:105-112 | after a series of clicks, a device is selected exactly when its start state differs from whether it was clicked an odd number of times |
| BookingForm.OnSubmit | frontend/cowork-booking/src/app/features/booking-form/booking-form.component.ts:118-142 | a request goes out exactly when the form is valid and the room id is present and non-zero; its device list is absent exactly when nothing is selected |
| BookingForm.RequestedDevicesAreOddClicks | frontend/cowork-booking/src/app/features/booking-form/booking-form.component.ts:136-142 | a request lists exactly the devices clicked an odd number of times, each once, and no list when there are none |
| EditRoundTrip.CreateFromFormStoresGroups | frontend/cowork-booking/src/app/features/admin-panel/admin-panel-enhanced.component.ts:122-132 | creating from the form stores a workspace with the form's fields and one room per room group, in order, with fresh consecutive room ids, the group's name, capacity and price, a flag that agrees with the group's devices, and one fresh device per device group with its name and cost |
| EditRoundTrip.EditThenPayloadMirrors | frontend/cowork-booking/src/app/features/admin-panel/admin-panel-enhanced.component.ts:150-230 | loading a stored workspace into the editor builds a payload that lists it exactly as stored |
| EditRoundTrip.EditOfIdZeroSendsNothing | frontend/cowork-booking/src/app/features/admin-panel/admin-panel-enhanced.component.ts:151-152 | a workspace with id 0 can be loaded but never saved |
| EditRoundTrip.EditThenSaveIsNoOp | frontend/cowork-booking/src/app/features/admin-panel/admin-panel-enhanced.component.ts:105-230 | loading a workspace and submitting the valid form unchanged sends that workspace's mirror to its id, and the corrected update then leaves the store unchanged |

## Left out

- Null strings on entities and payloads are not modelled. Strings are always present, so the `?? string.Empty` fallbacks do not arise.
- AdminPanelEnhanced.ValidFormPayload: the form's number controls are modelled as always holding a value, and room capacity as a whole number. In the component they are number inputs (admin-panel-enhanced.component.ts lines 59-60 and 76). A cleared input holds null and fails `required`, which the model cannot express. A fractional capacity such as 2.5 passes `min(1)` and `max(1000)` and is sent, but binding it to the `int` `Capacity` of `UpdateRoomDto` fails. Neither case is covered by the "exactly when" of this lemma.
- The `WorkSpace` entity carries optional `latitude` and `longitude`, following the service, which reads and writes them (WorkSpaceService.cs lines 33-34, 70-71, 99-100, 117-118 and 167-168), and the migration that adds the columns. The entity class WorkSpace.cs does not declare them.
- `double` and `decimal` are modelled as exact reals. Rounding, NaN and infinities are not modelled, nor is `parseFloat` on the form's text.
- The map picker, `onLocationSelected`, the HTTP layer, the controllers, the ORM's change tracking and the database's cascade rules are not modelled. The cascade is shown by a room or device leaving its owner's sequence.
- Fresh ids are drawn from one counter per table. The update draws them in a different order from the source. The source inserts all new rows at `SaveChanges`, so their ids are interleaved between matched-room devices and new rooms. The model draws the matched rooms' new devices first, then the new rooms. Only which fresh value lands where differs.
- An entry with id 0 could match a room or device added earlier in the same request, which still has id 0 before saving. This is not modelled: lookups search only the stored children.
- `GetAll` returns a map keyed by id. The order in which the database returns rows is not modelled.
- Text.Capitalize: covers ASCII letters only. `toUpperCase` on other letters and on characters that grow when upper-cased is not modelled. A string is a sequence of Unicode scalar values; lengths are counted in UTF-16 code units (`Text.Utf16Length`), as `string.Length` and `value.length` count them.
- `CreateAsync` and `UpdateAsync`, the flat single-workspace operations, are left out. Only the nested operations are modelled.
- `removeRoom` and `removeDevice` are left out because they depend on the user answering `confirm`. `resetForm`, `deleteWorkspace` in the panel, the loading flags and the success messages are also left out.
- CreateWorkSpaceDto.cs and CreateDeviceDto.cs are not part of this model. Their fields come from how the service reads them (WorkSpaceService.cs lines 111-118 and 139-143), and their validation attributes are not modelled.
- AdminPanelEnhanced.AddDevice: only valid room indices are modelled; other indices give no result. `FormArray.at` accepts negative indices counted from the end, and a missing room makes the component throw.
- Control paths with dots (`workspaceForm.get('rooms.0.name')`) are not modelled. `getErrorMessage` is modelled for top-level control names.
- The booking form's date and time handling is not modelled: splitting the time text and building `Date` values with `toISOString`. The request carries the values as entered.
- BookingForm.OnSubmit: a missing route parameter, a non-numeric one (NaN) and a missing room are all represented by an absent room id.
- ReconcileProperties.ReconcileRoomsContent: requires distinct stored room ids and at most one entry per room id. With repeated room entries the source reconciles the same room several times. Only the membership result (`ReconcileProperties.RoomSurvivesIffListed`) is stated for that case.
- ReconcileProperties.ApplyRoomEntriesKept: requires distinct kept room ids and at most one entry per room id, for the same reason.
- ReconcileProperties.ReconcileRoomsKept: requires distinct stored room ids and at most one entry per room id, for the same reason.
- PayloadBounds.ValidUpdateKeepsRoomsInBounds: requires a non-null room list. With a null list the stored rooms are kept as they are, and nothing bounds them.
- The nested create and update (`CreateWithRoomsAsync`, `UpdateWithRoomsAsync`) are reached by no route of WorkSpacesController.cs, which binds only `WorkSpaceDto`, and IWorkSpaceService.cs does not declare them. The model assumes a route that binds the nested payload and runs its validation attributes before calling them, as the enhanced panel's requests expect.
- The integer range attributes convert the coordinate with `Convert.ToInt32`, which throws for NaN and for values outside the 32-bit range instead of refusing them. That exception is not modelled: such values are simply refused.
- BookingForm.ToggleMembership: requires a selection without repeats. `BookingForm.ToggleKeepsSecondCopy` shows what happens otherwise.
- BookingForm.ToggleTwiceSelected: requires a selection without repeats, and states equality up to order, because the id moves to the end.
- UpdateIdempotence.UpdateWithMirrorIsNoOp: requires the stored flags to agree with the devices. The as-written update rewrites a stale flag (see Findings), so it is a no-op only on consistent stores.
- The longitude pattern refuses 180 and -180, which are valid longitudes. This is stated in `Coordinates.LongitudeExamples` and not treated as a defect, because the same place is reachable as the other of the two.

## Findings

| source | as written | input that shows it | evidently intended | confidence | as-written member | corrected member |
|---|---|---|---|---|---|---|
| BackEnd/CoworkBooking.Application/Services/WorkSpaceService.cs:216 | a matched room's stored `HasDevices` is set from the payload's device list, not from the devices the room ends up with | workspace 1 with room 10 owning device 100; save room 10 with a null device list: the device stays, the flag becomes false (with a list naming only device 999 instead: every device is deleted, the flag becomes true) | the flag equals "the room has devices" after every write, recomputed after the room loop | not executed | StoredFlags.StaleFlagWithNullDevices | StoredFlags.UpdateWithRoomsFixed |
| frontend/cowork-booking/src/app/features/admin-panel/admin-panel.component.ts:41 | the latitude pattern allows any fraction after a whole part of 90 | "90.9" passes the form, which posts a `WorkSpaceDto` to `/workspaces` (admin-panel.component.ts lines 91 and 113, WorkSpacesController.cs lines 37-43); its latitude has no range attribute, so the pattern is the only check and 90.9 is stored | the pattern's separate `90` alternative caps the whole part at 90, so only zeros may follow "90." | not executed | Coordinates.LatitudeExamples | Coordinates.LatitudeFixedIffInRange |
