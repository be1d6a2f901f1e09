/** The booking form (booking-form.component.ts): the list of selected
    devices the checkboxes toggle, and the request a submission sends. */
module BookingForm {
  import opened Wrappers
  import opened Seqs

  /** `toggleDevice` (lines 105-112): remove the first occurrence of the
      id when it is selected, append it otherwise. */
  function ToggleDevice(selected: seq<int>, deviceId: int): (r: seq<int>)
    ensures deviceId !in selected ==> r == selected + [deviceId]
    ensures deviceId in selected ==>
      exists i :: 0 <= i < |selected| && selected[i] == deviceId && deviceId !in selected[..i] &&
        r == selected[..i] + selected[i + 1..]
  {
    match IndexOf(selected, deviceId)
    case None => selected + [deviceId]
    case Some(i) => RemoveAt(selected, i)
  }

  /** `isDeviceSelected` (lines 114-116): `includes`, a linear scan. */
  method IsDeviceSelected(selected: seq<int>, deviceId: int) returns (r: bool)
    ensures r <==> deviceId in selected
  {
    var k := 0;
    while k < |selected|
      invariant 0 <= k <= |selected|
      invariant deviceId !in selected[..k]
    {
      if selected[k] == deviceId {
        return true;
      }
      assert selected[..k + 1] == selected[..k] + [selected[k]];
      k := k + 1;
    }
    assert selected[..k] == selected;
    return false;
  }

  /** After a toggle the id is selected exactly when it was not before,
      provided it was not listed twice; every other id keeps its
      membership. */
  lemma ToggleMembership(selected: seq<int>, deviceId: int, d: int)
    requires NoDup(selected)
    ensures d in ToggleDevice(selected, deviceId) <==> (if d == deviceId then d !in selected else d in selected)
  {
    match IndexOf(selected, deviceId)
    case None =>
    case Some(i) =>
      assert selected == selected[..i] + [deviceId] + selected[i + 1..];
  }

  /** Toggling keeps the selection free of repeats. */
  lemma ToggleNoDup(selected: seq<int>, deviceId: int)
    requires NoDup(selected)
    ensures NoDup(ToggleDevice(selected, deviceId))
  {
    match IndexOf(selected, deviceId)
    case None =>
      NoDupConcat(selected, [deviceId]);
    case Some(i) =>
      assert selected == selected[..i] + [deviceId] + selected[i + 1..];
      NoDupConcat(selected[..i] + [deviceId], selected[i + 1..]);
      NoDupConcat(selected[..i], [deviceId]);
      NoDupConcat(selected[..i], selected[i + 1..]);
  }

  /** With a repeated id, one toggle does not deselect it: only the first
      occurrence goes. */
  lemma ToggleKeepsSecondCopy()
    ensures ToggleDevice([7, 7], 7) == [7]
  {
    assert IndexOf([7, 7], 7) == Some(0);
  }

  /** Toggling an unselected id twice restores the list exactly. */
  lemma ToggleTwiceUnselected(selected: seq<int>, deviceId: int)
    requires deviceId !in selected
    ensures ToggleDevice(ToggleDevice(selected, deviceId), deviceId) == selected
  {
    var once := selected + [deviceId];
    assert once[..|selected|] == selected;
    assert IndexOf(once, deviceId) == Some(|selected|);
  }

  /** Toggling a selected id twice restores the same selection, the id
      moved to the end, provided it was not listed twice. */
  lemma ToggleTwiceSelected(selected: seq<int>, deviceId: int)
    requires NoDup(selected) && deviceId in selected
    ensures multiset(ToggleDevice(ToggleDevice(selected, deviceId), deviceId)) == multiset(selected)
  {
    var i := IndexOf(selected, deviceId).value;
    var once := ToggleDevice(selected, deviceId);
    assert once == selected[..i] + selected[i + 1..];
    ToggleMembership(selected, deviceId, deviceId);
    assert IndexOf(once, deviceId).None?;
    SplitMultiset(selected, i);
  }

  lemma SplitMultiset(xs: seq<int>, i: nat)
    requires i < |xs|
    ensures multiset(xs[..i] + xs[i + 1..] + [xs[i]]) == multiset(xs)
  {
    assert xs == xs[..i] + [xs[i]] + xs[i + 1..];
  }

  /** The booking form's controls; `date` stands for the chosen day. */
  datatype BookingValues = BookingValues(date: Option<int>, startTime: string, endTime: string, userId: int)

  /** What a submission sends, the day and the two time texts not yet
      combined into instants. */
  datatype BookingRequest = BookingRequest(
    roomId: int, userId: int, date: int, startTime: string, endTime: string,
    deviceIds: Option<seq<int>>)

  /** `bookingForm.valid`: the day and both times are required. */
  predicate BookingFormValid(v: BookingValues) {
    v.date.Some? && |v.startTime| > 0 && |v.endTime| > 0
  }

  /** `onSubmit` (lines 118-142): nothing is sent for an invalid form or
      without a room (`!roomId` also holds of 0, and `roomId` is `None` for
      a missing or non-numeric route parameter); otherwise the room, the
      user and the selected devices, the device list left out when
      nothing is selected. */
  function OnSubmit(v: BookingValues, roomId: Option<int>, selected: seq<int>): (r: Option<BookingRequest>)
    ensures r.Some? <==> BookingFormValid(v) && roomId.Some? && roomId.value != 0
    ensures r.Some? ==>
      && r.value.roomId == roomId.value && r.value.userId == v.userId && r.value.date == v.date.value
      && r.value.startTime == v.startTime && r.value.endTime == v.endTime
      && (r.value.deviceIds.None? <==> selected == [])
      && (r.value.deviceIds.Some? ==> r.value.deviceIds.value == selected)
  {
    if !BookingFormValid(v) || roomId.None? || roomId.value == 0 then None
    else
      Some(BookingRequest(roomId.value, v.userId, v.date.value, v.startTime, v.endTime,
        if |selected| > 0 then Some(selected) else None))
  }

  /** The selection after the checkboxes of `clicks` are clicked in
      order. */
  function ToggleAll(selected: seq<int>, clicks: seq<int>): seq<int>
    decreases |clicks|
  {
    if clicks == [] then selected else ToggleAll(ToggleDevice(selected, clicks[0]), clicks[1..])
  }

  /** Whether `d` occurs an odd number of times in `clicks`. */
  function OddClicks(clicks: seq<int>, d: int): bool
    decreases |clicks|
  {
    if clicks == [] then false else (clicks[0] == d) != OddClicks(clicks[1..], d)
  }

  /** A device ends up selected iff it started selected and was clicked
      an even number of times, or started unselected and was clicked an
      odd number of times. */
  lemma {:induction false} ToggleAllParity(selected: seq<int>, clicks: seq<int>, d: int)
    requires NoDup(selected)
    ensures NoDup(ToggleAll(selected, clicks))
    ensures d in ToggleAll(selected, clicks) <==> ((d in selected) != OddClicks(clicks, d))
    decreases |clicks|
  {
    if clicks != [] {
      var next := ToggleDevice(selected, clicks[0]);
      ToggleNoDup(selected, clicks[0]);
      ToggleMembership(selected, clicks[0], d);
      ToggleAllParity(next, clicks[1..], d);
    }
  }

  /** Starting from no selection, a request's device list holds exactly
      the devices clicked an odd number of times, each once; no list at
      all when there are none. */
  lemma RequestedDevicesAreOddClicks(v: BookingValues, roomId: Option<int>, clicks: seq<int>)
    requires OnSubmit(v, roomId, ToggleAll([], clicks)).Some?
    ensures OnSubmit(v, roomId, ToggleAll([], clicks)).value.deviceIds.Some? <==> exists d :: OddClicks(clicks, d)
    ensures OnSubmit(v, roomId, ToggleAll([], clicks)).value.deviceIds.Some? ==>
      var ids := OnSubmit(v, roomId, ToggleAll([], clicks)).value.deviceIds.value;
      NoDup(ids) && forall d :: d in ids <==> OddClicks(clicks, d)
  {
    var sel := ToggleAll([], clicks);
    forall d ensures d in sel <==> OddClicks(clicks, d) {
      ToggleAllParity([], clicks, d);
    }
    ToggleAllParity([], clicks, 0);
    if sel != [] {
      assert sel[0] in sel;
      assert OddClicks(clicks, sel[0]);
      assert exists d :: OddClicks(clicks, d);
    } else {
      forall d ensures !OddClicks(clicks, d) {
        ToggleAllParity([], clicks, d);
      }
    }
  }
}
