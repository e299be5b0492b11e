/** The state of the booking form (BookingForm.jsx): the chosen room and date,
    that day's bookings of the room, the selected range `[startSlot, endSlot)`,
    the phase of the two-click selection and the message shown. */
module BookingFormState {
  import opened Common
  import opened Records
  import opened TimeText
  import opened SlotGrid
  import opened BookingsApi

  /** `selectPhase`: whether the next grid click picks a start or an end. */
  datatype Phase = PickStart | PickEnd

  /** The messages the form shows. */
  datatype FormError =
    | RangeCrossesBooking      // the clicked range runs through an occupied slot
    | NoTimeChosen             // submit pressed with no start or no end
    | Remote(message: string)  // the message of a failed `createBooking`

  /** The signed-in user, when there is one. */
  datatype User = User(id: RecordId, username: string)

  const MinutesPerDay: nat := 1440

  /** A time the form holds is the "HH:MM" text of a time of day, or absent
      (`null` or the empty text of a cleared input). */
  predicate WithinDay(t: Option<Minute>)
  {
    t.None? || t.value < MinutesPerDay
  }

  /** The start the form is opened with: `hour:00` for a truthy `initialData.hour`. */
  function PrefillStart(hour: Option<nat>): Option<Minute>
  {
    if hour.Some? && hour.value != 0 then Some(hour.value * 60) else None
  }

  /** The end the form is opened with: the next full hour. */
  function PrefillEnd(hour: Option<nat>): Option<Minute>
  {
    if hour.Some? && hour.value != 0 then Some((hour.value + 1) * 60) else None
  }

  /** `TIME_SLOTS.indexOf(startSlot)`: -1 for a missing start or one off the grid. */
  function StartIndex(start: Option<Minute>): (k: int)
    ensures -1 <= k < SlotCount
    ensures k >= 0 ==> start.Some? && TimeSlots()[k] == start.value
  {
    if start.None? then -1 else SlotIndex(start.value)
  }

  /** The end the start input proposes when it moves the end: half an hour after
      the typed start, but no later than 20:00. A cleared start gives the text
      "NaN:NaN", which does not sort before "20:00", so the end becomes 20:00. */
  function PushedEnd(v: Option<Minute>): Minute
  {
    if v.Some? && v.value + Stride <= DayEnd then v.value + Stride else DayEnd
  }

  /** The start input builds the proposed end from the hours and minutes of the
      typed text; that text is the "HH:MM" text of the start plus 30 minutes, and
      its test against "20:00" is the test of `PushedEnd`. For a cleared start the
      text is "NaN:NaN", which fails the test. */
  lemma TypedStartEndText(v: Minute)
    requires v < MinutesPerDay
    ensures Pad2(v / 60 + (v % 60 + 30) / 60) + ":" + Pad2((v % 60 + 30) % 60) == Format(v + Stride)
    ensures (LexLess(Format(v + Stride), Format(DayEnd)) || Format(v + Stride) == Format(DayEnd))
            <==> PushedEnd(Some(v)) == v + Stride
    ensures !LexLess("NaN:NaN", Format(DayEnd)) && "NaN:NaN" != Format(DayEnd)
  {
    assert (v + 30) / 60 == v / 60 + (v % 60 + 30) / 60;
    assert (v + 30) % 60 == (v % 60 + 30) % 60;
    FormatOrder(v + Stride, DayEnd);
    FormatInjective(v + Stride, DayEnd);
    assert Format(DayEnd)[0] == '2';
  }

  /** A selectable slot has the next boundary half an hour later. */
  lemma NextBoundary(t: Minute)
    requires IsSelectable(t)
    ensures t + Stride in TimeSlots() && TimeSlots()[SlotIndex(t) + 1] == t + Stride
    ensures t in TimeSlots() && t + Stride <= DayEnd
  {
    assert TimeSlots()[SlotIndex(t) + 1] == t + Stride;
  }

  class BookingForm {
    var roomId: Option<RoomId>
    var date: Option<Day>
    var dayBookings: seq<Booking>
    var loadingSlots: bool
    var startSlot: Option<Minute>
    var endSlot: Option<Minute>
    var phase: Phase
    var error: Option<FormError>

    /** Both times are times of day, so they have "HH:MM" text. */
    predicate Valid()
      reads this
    {
      WithinDay(startSlot) && WithinDay(endSlot)
    }

    /** What the grid clicks keep true: while an end is being picked, the start
        is a free selectable slot and the end the boundary after it; otherwise
        either nothing is selected or a range of grid boundaries with no
        occupied slot in it. The manual inputs and a reload of the day's
        bookings do not keep it. */
    predicate Consistent()
      reads this
    {
      match phase
      case PickEnd =>
        startSlot.Some? && IsSelectable(startSlot.value) && !IsSlotOccupied(dayBookings, startSlot.value) &&
        endSlot == Some(startSlot.value + Stride)
      case PickStart =>
        (startSlot.None? && endSlot.None?) ||
        (startSlot.Some? && endSlot.Some? && startSlot.value in TimeSlots() && endSlot.value in TimeSlots() &&
         startSlot.value < endSlot.value && FreeRange(dayBookings, startSlot.value, endSlot.value))
    }

    /** Opening the form as written: the initial state, then the two mount
        effects. The fetch starts when a room and a date are known; the reset
        effect, which also runs on mount, clears the start and end prefilled
        from `initialHour`. */
    constructor (rooms: seq<Room>, initialRoom: Option<RoomId>, initialDate: Option<Day>,
                 initialHour: Option<nat>, today: Day)
      ensures roomId == initialRoom.OrElse(RoomIdAt(rooms, 0)) && date == initialDate.OrElse(Some(today))
      ensures date.Some?
      ensures dayBookings == [] && loadingSlots == roomId.Some?
      ensures startSlot.None? && endSlot.None? && phase == PickStart && error.None?
      ensures Valid() && Consistent()
    {
      roomId := initialRoom.OrElse(RoomIdAt(rooms, 0));
      date := initialDate.OrElse(Some(today));
      dayBookings := [];
      loadingSlots := false;
      startSlot := PrefillStart(initialHour);
      endSlot := PrefillEnd(initialHour);
      phase := PickStart;
      error := None;
      new;
      StartFetch();
      ResetSelection();
    }

    /** Opening the form as evidently intended: the same initial state and
        fetch, with the selection reset only when the room or date later
        changes, so the hour the form was opened for stays selected. */
    constructor KeepingPrefill(rooms: seq<Room>, initialRoom: Option<RoomId>, initialDate: Option<Day>,
                               initialHour: Option<nat>, today: Day)
      requires initialHour.Some? ==> initialHour.value < 23
      ensures roomId == initialRoom.OrElse(RoomIdAt(rooms, 0)) && date == initialDate.OrElse(Some(today))
      ensures dayBookings == [] && loadingSlots == roomId.Some?
      ensures startSlot == PrefillStart(initialHour) && endSlot == PrefillEnd(initialHour)
      ensures phase == PickStart && error.None? && Valid()
    {
      roomId := initialRoom.OrElse(RoomIdAt(rooms, 0));
      date := initialDate.OrElse(Some(today));
      dayBookings := [];
      loadingSlots := false;
      startSlot := PrefillStart(initialHour);
      endSlot := PrefillEnd(initialHour);
      phase := PickStart;
      error := None;
      new;
      StartFetch();
    }

    /** `fetchBookings`: nothing without a room and a date, otherwise the loading flag is raised. */
    method StartFetch()
      modifies this`loadingSlots
      ensures loadingSlots == (old(loadingSlots) || (roomId.Some? && date.Some?))
    {
      if roomId.Some? && date.Some? {
        loadingSlots := true;
      }
    }

    /** The effect on `[roomId, date]`: the selection and the message are cleared. */
    method ResetSelection()
      modifies this`startSlot, this`endSlot, this`phase, this`error
      ensures startSlot.None? && endSlot.None? && phase == PickStart && error.None?
    {
      startSlot, endSlot, phase, error := None, None, PickStart, None;
    }

    /** The answer to the fetch: the day's bookings, or none when it failed. The
        answer is taken whichever room and date it was asked for. */
    method SlotsLoaded(response: Option<seq<Booking>>)
      modifies this`dayBookings, this`loadingSlots
      ensures dayBookings == (if response.Some? then response.value else [])
      ensures !loadingSlots
    {
      dayBookings := if response.Some? then response.value else [];
      loadingSlots := false;
    }

    /** Choosing a room. A change fetches the new room's day and clears the
        selection; choosing the same room changes nothing. */
    method SelectRoom(r: Option<RoomId>)
      modifies this`roomId, this`loadingSlots, this`startSlot, this`endSlot, this`phase, this`error
      ensures roomId == r
      ensures r == old(roomId) ==> loadingSlots == old(loadingSlots) && startSlot == old(startSlot) &&
                                   endSlot == old(endSlot) && phase == old(phase) && error == old(error)
      ensures r != old(roomId) ==> loadingSlots == (old(loadingSlots) || (r.Some? && date.Some?)) &&
                                   startSlot.None? && endSlot.None? && phase == PickStart && error.None?
      ensures old(Valid()) ==> Valid()
      ensures old(Consistent()) ==> Consistent()
    {
      if r != roomId {
        roomId := r;
        StartFetch();
        ResetSelection();
      }
    }

    /** Choosing a date, with the same effects as choosing a room. */
    method SelectDate(d: Option<Day>)
      modifies this`date, this`loadingSlots, this`startSlot, this`endSlot, this`phase, this`error
      ensures date == d
      ensures d == old(date) ==> loadingSlots == old(loadingSlots) && startSlot == old(startSlot) &&
                                 endSlot == old(endSlot) && phase == old(phase) && error == old(error)
      ensures d != old(date) ==> loadingSlots == (old(loadingSlots) || (roomId.Some? && d.Some?)) &&
                                 startSlot.None? && endSlot.None? && phase == PickStart && error.None?
      ensures old(Valid()) ==> Valid()
      ensures old(Consistent()) ==> Consistent()
    {
      if d != date {
        date := d;
        StartFetch();
        ResetSelection();
      }
    }

    /** `handleSlotClick(t)` for a selectable slot `t`. Grid text compares as
        minutes (`FormatOrder`), so the comparisons are on minutes. */
    method HandleSlotClick(t: Minute)
      requires Valid() && IsSelectable(t)
      modifies this`startSlot, this`endSlot, this`phase, this`error
      ensures Valid()
      ensures old(Consistent()) ==> Consistent()
      // a click on an occupied slot is ignored
      ensures IsSlotOccupied(dayBookings, t) ==>
                startSlot == old(startSlot) && endSlot == old(endSlot) && phase == old(phase) && error == old(error)
      // picking a start selects the clicked slot alone and goes on to pick an end
      ensures !IsSlotOccupied(dayBookings, t) && old(phase) == PickStart ==>
                startSlot == Some(t) && endSlot == Some(t + Stride) && phase == PickEnd && error.None?
      // a click before the start moves the start there and keeps picking an end
      ensures !IsSlotOccupied(dayBookings, t) && old(phase) == PickEnd &&
              old(startSlot).Some? && t < old(startSlot).value ==>
                startSlot == Some(t) && endSlot == Some(t + Stride) && phase == PickEnd && error == old(error)
      // a click on the start keeps that slot alone
      ensures !IsSlotOccupied(dayBookings, t) && old(phase) == PickEnd && old(startSlot) == Some(t) ==>
                startSlot == Some(t) && endSlot == Some(t + Stride) && phase == PickStart && error == old(error)
      // a later click extends the range through `t` unless a slot from the start
      // to `t` is occupied, in which case the range stays and the message is shown;
      // a missing start is scanned from index -1, which nothing occupies
      ensures !IsSlotOccupied(dayBookings, t) && old(phase) == PickEnd &&
              (old(startSlot).None? || t > old(startSlot).value) ==>
                startSlot == old(startSlot) && phase == PickStart &&
                (RangeFree(dayBookings, StartIndex(old(startSlot)), SlotIndex(t)) ==>
                   endSlot == Some(t + Stride) && error.None? &&
                   (startSlot.Some? ==> FreeRange(dayBookings, startSlot.value, endSlot.value))) &&
                (!RangeFree(dayBookings, StartIndex(old(startSlot)), SlotIndex(t)) ==>
                   endSlot == old(endSlot) && error == Some(RangeCrossesBooking))
    {
      if IsSlotOccupied(dayBookings, t) {
        return;
      }
      NextBoundary(t);
      var idx := SlotIndex(t);
      var next := TimeSlots()[idx + 1];
      if phase == PickStart {
        startSlot, endSlot, phase, error := Some(t), Some(next), PickEnd, None;
      } else if startSlot.Some? && t < startSlot.value {
        startSlot, endSlot := Some(t), Some(next);
      } else if startSlot == Some(t) {
        SingleSlotRange(dayBookings, t);
        endSlot, phase := Some(next), PickStart;
      } else {
        var blocked := RangeBlocked(dayBookings, StartIndex(startSlot), idx);
        if blocked {
          error := Some(RangeCrossesBooking);
          if startSlot.Some? && IsSelectable(startSlot.value) && !IsSlotOccupied(dayBookings, startSlot.value) {
            NextBoundary(startSlot.value);
            SingleSlotRange(dayBookings, startSlot.value);
          }
        } else {
          // `TIME_SLOTS[endIdx + 1]` always exists for a selectable slot
          endSlot, error := Some(next), None;
          if startSlot.Some? {
            ScanFreesRange(dayBookings, startSlot.value, t);
          }
        }
        phase := PickStart;
      }
    }

    /** The start input: the start becomes the typed value (absent when the
        input is cleared); when there was no end, or the new start is not
        before the end, the end moves to `PushedEnd`. */
    method TypeStart(v: Option<Minute>)
      requires Valid() && WithinDay(v)
      modifies this`startSlot, this`endSlot, this`error
      ensures Valid()
      ensures startSlot == v && error.None?
      ensures old(endSlot).None? || (v.Some? && v.value >= old(endSlot).value) ==> endSlot == Some(PushedEnd(v))
      ensures old(endSlot).Some? && (v.None? || v.value < old(endSlot).value) ==> endSlot == old(endSlot)
      ensures v.Some? && v.value < DayEnd && endSlot != old(endSlot) ==> v.value < endSlot.value <= DayEnd
    {
      startSlot := v;
      if endSlot.None? || (v.Some? && v.value >= endSlot.value) {
        endSlot := Some(PushedEnd(v));
      }
      error := None;
    }

    /** The end input: the end becomes the typed value; nothing is checked. */
    method TypeEnd(v: Option<Minute>)
      requires Valid() && WithinDay(v)
      modifies this`endSlot, this`error
      ensures Valid()
      ensures endSlot == v && error.None?
    {
      endSlot := v;
      error := None;
    }

    /** `handleSubmit`: with no start or no end the form only shows a message;
        otherwise it clears the message and hands `createBooking` the room, the
        date, both times as "HH:MM" text, the typed fields, a fresh cancellation
        code for a guest and the user's id for a signed-in user. */
    method Submit(user: Option<User>, bookerName: string, department: string, topic: string,
                  freshCode: string) returns (request: Option<BookingInput>)
      requires Valid()
      modifies this`error
      ensures request.None? <==> startSlot.None? || endSlot.None?
      ensures request.None? ==> error == Some(NoTimeChosen)
      ensures request.Some? ==> error.None?
      ensures request.Some? ==>
                request.value.roomId == roomId && request.value.date == date &&
                request.value.startTime == Some(Format(startSlot.value)) &&
                request.value.endTime == Some(Format(endSlot.value)) &&
                request.value.bookerName == bookerName && request.value.department == department &&
                request.value.topic == topic
      ensures request.Some? ==> (request.value.cancelCode.Some? <==> user.None?)
      ensures request.Some? && user.None? ==> request.value.cancelCode == Some(freshCode)
      ensures request.Some? ==> request.value.userId == (if user.Some? then Some(user.value.id) else None)
    {
      if startSlot.None? || endSlot.None? {
        error := Some(NoTimeChosen);
        return None;
      }
      error := None;
      var code := if user.Some? then None else Some(freshCode);
      var userId := if user.Some? then Some(user.value.id) else None;
      request := Some(BookingInput(roomId, date, Some(Format(startSlot.value)), Some(Format(endSlot.value)),
                                   bookerName, department, topic, code, userId));
    }

    /** A failed `createBooking` shows its message. */
    method CreateFailed(message: string)
      modifies this`error
      ensures error == Some(Remote(message))
    {
      error := Some(Remote(message));
    }
  }

  /** Opening the form from a calendar cell as written: the cell's hour would
      prefill 10:00-11:00, but after the mount effects nothing is selected. */
  method OpenFromCalendarCell() returns (form: BookingForm)
    ensures PrefillStart(Some(10)) == Some(600) && PrefillEnd(Some(10)) == Some(660)
    ensures form.startSlot.None? && form.endSlot.None?
  {
    form := new BookingForm([Room(1, "A")], None, Some(0), Some(10), 0);
  }

  /** A start typed off the grid (12:15) is found at no grid index, so the scan
      for an end runs from index -1, that is from 08:00: with a booking at
      09:00-10:00, a click on the free slot 13:00 is refused as crossing it. */
  method OffGridStartScansFromMorning() returns (form: BookingForm)
    ensures |form.dayBookings| == 1
    ensures form.dayBookings[0].startTime == Some(540) && form.dayBookings[0].endTime == Some(600)
    ensures !IsSlotOccupied(form.dayBookings, 780) && form.startSlot == Some(735)
    ensures form.error == Some(RangeCrossesBooking) && form.endSlot == Some(750)
  {
    var early := Booking("early", Some(RoomRef(Some(1), None)), 0, Some(540), Some(600), "", "", "", None, None);
    form := new BookingForm.KeepingPrefill([Room(1, "A")], None, Some(0), None, 0);
    form.SlotsLoaded(Some([early]));
    assert TimeSlots()[8] == 720 && TimeSlots()[10] == 780;
    form.HandleSlotClick(720);
    form.TypeStart(Some(735));
    assert TimeSlots()[2] == 540 && Covers(early, 540);
    assert SlotOccupiedAt(form.dayBookings, 2);
    form.HandleSlotClick(780);
  }

  /** The corrected opening keeps the cell's hour selected. */
  method OpenFromCalendarCellKeepingPrefill() returns (form: BookingForm)
    ensures form.startSlot == Some(600) && form.endSlot == Some(660)
  {
    form := new BookingForm.KeepingPrefill([Room(1, "A")], None, Some(0), Some(10), 0);
  }
}
