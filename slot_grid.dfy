/** The half-hour slot grid of the booking form and the occupancy test over a
    room's bookings for one day (BookingForm.jsx, the parts outside the
    component's state). */
module SlotGrid {
  import opened Common
  import opened Records

  /** 08:00, the first boundary of the booking day. */
  const DayStart: Minute := 480
  /** 20:00, the last boundary: an end marker only. */
  const DayEnd: Minute := 1200
  /** The grid's step, in minutes. */
  const Stride: nat := 30
  /** Number of boundaries on the grid. */
  const SlotCount: nat := 25

  /** `TIME_SLOTS`: the boundaries 08:00, 08:30, ..., 20:00. */
  function TimeSlots(): seq<Minute>
  {
    seq(SlotCount, i requires 0 <= i < SlotCount => DayStart + Stride * i)
  }

  /** `generateTimeSlots`: two boundaries for every hour from 8 to 19, then 20:00. */
  method GenerateTimeSlots() returns (slots: seq<Minute>)
    ensures |slots| == 25
    ensures slots[0] == DayStart && slots[|slots| - 1] == DayEnd
    ensures forall i :: 0 <= i < |slots| - 1 ==> slots[i + 1] == slots[i] + Stride
    ensures forall i, j :: 0 <= i < j < |slots| ==> slots[i] < slots[j]
    ensures slots == TimeSlots()
  {
    slots := [];
    var h := 8;
    while h < 20
      invariant 8 <= h <= 20
      invariant |slots| == 2 * (h - 8)
      invariant forall i :: 0 <= i < |slots| ==> slots[i] == DayStart + Stride * i
    {
      slots := slots + [h * 60, h * 60 + 30];
      h := h + 1;
    }
    slots := slots + [20 * 60];
  }

  /** `TIME_SLOTS.slice(0, -1)`: the boundaries a range may start at. */
  function SelectableSlots(): seq<Minute>
  {
    TimeSlots()[..SlotCount - 1]
  }

  /** The selectable starts are the 24 boundaries before 20:00; 20:00 never starts a range,
      and every selectable start has a next boundary 30 minutes later. */
  lemma SelectableSlotsShape()
    ensures |SelectableSlots()| == 24
    ensures DayEnd !in SelectableSlots()
    ensures forall t :: t in SelectableSlots() <==> t in TimeSlots() && t < DayEnd
    ensures forall t :: t in SelectableSlots() ==> t + Stride in TimeSlots()
  {
    forall t | t in SelectableSlots() ensures t + Stride in TimeSlots() {
      var i :| 0 <= i < 24 && SelectableSlots()[i] == t;
      assert TimeSlots()[i + 1] == t + Stride;
    }
  }

  /** `TIME_SLOTS.indexOf(t)`: the position of `t` on the grid, or -1. */
  function SlotIndex(t: int): (k: int)
    ensures -1 <= k < SlotCount
    ensures k == -1 <==> t !in TimeSlots()
    ensures k >= 0 ==> TimeSlots()[k] == t
  {
    if DayStart <= t <= DayEnd && (t - DayStart) % Stride == 0 then
      assert TimeSlots()[(t - DayStart) / Stride] == t;
      (t - DayStart) / Stride
    else
      assert forall i :: 0 <= i < SlotCount ==> TimeSlots()[i] != t;
      -1
  }

  /** A grid boundary the user may click: any but 20:00. */
  predicate IsSelectable(t: Minute)
  {
    0 <= SlotIndex(t) < SlotCount - 1
  }

  /** The half-open occupancy test `start <= t < end`. A booking whose start or
      end time is missing occupies nothing: JavaScript's comparisons with
      `undefined` are all false. */
  predicate Covers(b: Booking, t: Minute)
  {
    b.startTime.Some? && b.endTime.Some? && b.startTime.value <= t < b.endTime.value
  }

  /** `isSlotOccupied(t, bookings)`: `bookings.some(...)` over the occupancy test. */
  function IsSlotOccupied(bs: seq<Booking>, t: Minute): (r: bool)
    ensures r <==> exists i :: 0 <= i < |bs| && Covers(bs[i], t)
  {
    if bs == [] then false
    else Covers(bs[0], t) || IsSlotOccupied(bs[1..], t)
  }

  /** `getSlotBooking(t, bookings)`: `bookings.find(...)` over the same test. */
  function GetSlotBooking(bs: seq<Booking>, t: Minute): (r: Option<Booking>)
    ensures r.Some? <==> IsSlotOccupied(bs, t)
    ensures r.Some? ==> exists k :: 0 <= k < |bs| && bs[k] == r.value && Covers(bs[k], t) &&
                                    forall j :: 0 <= j < k ==> !Covers(bs[j], t)
  {
    if bs == [] then None
    else if Covers(bs[0], t) then Some(bs[0])
    else
      var r := GetSlotBooking(bs[1..], t);
      if r.Some? then
        var k :| 0 <= k < |bs[1..]| && bs[1..][k] == r.value && Covers(bs[1..][k], t) &&
                 forall j :: 0 <= j < k ==> !Covers(bs[1..][j], t);
        assert bs[k + 1] == r.value;
        r
      else r
  }

  /** `isSlotOccupied(TIME_SLOTS[i], bookings)` for an index that may fall off the
      grid. Off the grid the slot is `undefined`, its text "undefined:00.000"
      sorts after every time, and so no booking occupies it. */
  predicate SlotOccupiedAt(bs: seq<Booking>, i: int)
  {
    0 <= i < SlotCount && IsSlotOccupied(bs, TimeSlots()[i])
  }

  /** No grid slot with index in `lo..hi` (both inclusive) is occupied. */
  predicate RangeFree(bs: seq<Booking>, lo: int, hi: int)
  {
    forall i :: lo <= i <= hi ==> !SlotOccupiedAt(bs, i)
  }

  /** The scan of `handleSlotClick`: the `for` loop from the start's index to the
      clicked slot's index that stops at the first occupied slot. */
  method RangeBlocked(bs: seq<Booking>, startIdx: int, endIdx: int) returns (blocked: bool)
    requires -1 <= startIdx
    ensures blocked <==> exists i :: startIdx <= i <= endIdx && SlotOccupiedAt(bs, i)
    ensures blocked <==> !RangeFree(bs, startIdx, endIdx)
  {
    blocked := false;
    var i := startIdx;
    while i <= endIdx
      invariant startIdx <= i
      invariant i <= endIdx + 1 || i == startIdx
      invariant forall j :: startIdx <= j < i ==> !SlotOccupiedAt(bs, j)
      decreases endIdx - i
    {
      if SlotOccupiedAt(bs, i) {
        blocked := true;
        break;
      }
      i := i + 1;
    }
  }

  /** No grid slot in the half-open range `[s, e)` is occupied. */
  predicate FreeRange(bs: seq<Booking>, s: Minute, e: Minute)
  {
    forall i :: 0 <= i < SlotCount && s <= TimeSlots()[i] < e ==> !IsSlotOccupied(bs, TimeSlots()[i])
  }

  /** A scan that found nothing occupied from the start's index (-1 when the start
      is not on the grid) to the clicked slot `t` leaves every grid slot of the
      committed range `[s, t + 30)` free. */
  lemma ScanFreesRange(bs: seq<Booking>, s: Minute, t: Minute)
    requires t in TimeSlots()
    requires RangeFree(bs, SlotIndex(s), SlotIndex(t))
    ensures FreeRange(bs, s, t + Stride)
  {
    forall i | 0 <= i < SlotCount && s <= TimeSlots()[i] < t + Stride
      ensures !IsSlotOccupied(bs, TimeSlots()[i])
    {
      SlotIndexIsOffset(t);
      if s in TimeSlots() {
        SlotIndexIsOffset(s);
      }
      assert SlotIndex(s) <= i <= SlotIndex(t);
      assert !SlotOccupiedAt(bs, i);
    }
  }

  /** A free grid slot on its own is a free range. */
  lemma SingleSlotRange(bs: seq<Booking>, s: Minute)
    requires s in TimeSlots() && !IsSlotOccupied(bs, s)
    ensures FreeRange(bs, s, s + Stride)
  {
    forall i | 0 <= i < SlotCount && s <= TimeSlots()[i] < s + Stride
      ensures !IsSlotOccupied(bs, TimeSlots()[i])
    {
      SlotIndexIsOffset(s);
      assert TimeSlots()[i] == s;
    }
  }

  /** How the grid draws a slot. */
  datatype SlotView = Occupied | StartMark | EndMark | Selected | Free

  /** `getSlotState(t)` for the current selection `startSlot`/`endSlot`. */
  function SlotState(bs: seq<Booking>, startSlot: Option<Minute>, endSlot: Option<Minute>, t: Minute): (v: SlotView)
    ensures v == Occupied <==> IsSlotOccupied(bs, t)
    ensures startSlot.None? ==> v in {Occupied, Free}
  {
    if IsSlotOccupied(bs, t) then Occupied
    else if startSlot.None? then Free
    else if t == startSlot.value && endSlot.None? then StartMark
    else if endSlot.None? then Free
    else
      // endSlot is the boundary after the range; the last selected slot is the one before it
      var endIdx := SlotIndex(endSlot.value);
      var lastSelected := if endIdx > 0 then TimeSlots()[endIdx - 1] else endSlot.value;
      if t == startSlot.value then StartMark
      else if t == lastSelected then EndMark
      else if startSlot.value < t < lastSelected then Selected
      else Free
  }

  /** With a range `[s, e)` on the grid, a free slot is drawn as part of the
      selection exactly when it lies in the range: the start as the start, the
      last slot before `e` as the end, and the ones between as selected. */
  lemma SlotStateShowsRange(bs: seq<Booking>, s: Minute, e: Minute, t: Minute)
    requires s in TimeSlots() && e in TimeSlots() && t in TimeSlots() && s < e
    requires !IsSlotOccupied(bs, t)
    ensures SlotState(bs, Some(s), Some(e), t) != Free <==> s <= t < e
    ensures SlotState(bs, Some(s), Some(e), t) == StartMark <==> t == s
    ensures SlotState(bs, Some(s), Some(e), t) == EndMark <==> t == e - Stride && t != s
    ensures SlotState(bs, Some(s), Some(e), t) == Selected <==> s < t < e - Stride
  {
    SlotIndexIsOffset(s);
    SlotIndexIsOffset(t);
    SlotIndexIsOffset(e);
    var k := SlotIndex(e);
    assert TimeSlots()[k - 1] == e - Stride;
  }

  /** No time after 20:00 is a boundary of the grid. */
  lemma PastLastBoundary(t: Minute)
    requires t > DayEnd
    ensures t !in TimeSlots()
  {
    forall i | 0 <= i < SlotCount ensures TimeSlots()[i] != t {
    }
  }

  /** A grid boundary is `DayStart` plus a multiple of the stride. */
  lemma SlotIndexIsOffset(t: Minute)
    requires t in TimeSlots()
    ensures DayStart <= t <= DayEnd && t == DayStart + Stride * SlotIndex(t)
  {
  }

  /** With only a start chosen, the start slot alone is marked. */
  lemma SlotStateShowsStart(bs: seq<Booking>, s: Minute, t: Minute)
    requires !IsSlotOccupied(bs, t)
    ensures SlotState(bs, Some(s), None, t) == (if t == s then StartMark else Free)
  {
  }
}
