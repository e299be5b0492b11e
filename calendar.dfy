/** The week view of the calendar (Calendar.jsx): which bookings a one-hour
    cell shows, whether a cell counts as occupied, and whether it offers the
    "add" target that opens the booking form for that hour. */
module Calendar {
  import opened Common
  import opened Records
  import opened SlotGrid

  /** `HOURS`: the rows of the view, one per hour from 8 to 20. */
  function Hours(): (hs: seq<nat>)
    ensures |hs| == 13 && hs[0] == 8 && hs[12] == 20
    ensures forall i :: 0 <= i < |hs| ==> hs[i] == 8 + i
  {
    seq(13, i requires 0 <= i < 13 => 8 + i)
  }

  /** The hour of a booking's start: the number before the first ':'. */
  function StartHour(b: Booking): Option<nat>
  {
    if b.startTime.Some? then Some(b.startTime.value / 60) else None
  }

  /** The hour a booking's block ends at: its end's hour, plus one when the
      end has minutes. */
  function EffectiveEnd(b: Booking): Option<nat>
  {
    if b.endTime.Some? then
      Some(b.endTime.value / 60 + (if b.endTime.value % 60 > 0 then 1 else 0))
    else None
  }

  /** The hour test of `getBookingsForSlot`. A missing start or end parses to
      NaN, and every comparison with NaN is false. */
  predicate CoversHour(b: Booking, h: nat)
  {
    StartHour(b).Some? && EffectiveEnd(b).Some? && StartHour(b).value <= h < EffectiveEnd(b).value
  }

  /** The room-and-date test shared by both lookups. A booking with no room
      and a missing room (`rooms[1]?.id` when there is one room) are both
      `undefined`, and `undefined === undefined` holds. */
  predicate OnRoomDay(b: Booking, roomId: Option<RoomId>, day: Day)
  {
    BookingRoomId(b) == roomId && b.date == day
  }

  /** `getBookingsForSlot(roomId, day, hour)`. */
  function BookingsForSlot(bs: seq<Booking>, roomId: Option<RoomId>, day: Day, h: nat): (r: seq<Booking>)
    ensures forall b :: b in r <==> b in bs && OnRoomDay(b, roomId, day) && CoversHour(b, h)
  {
    Filter(bs, (b: Booking) => OnRoomDay(b, roomId, day) && CoversHour(b, h))
  }

  /** `getBookingsStartingAt(roomId, day, hour)`: the blocks drawn from this cell. */
  function BookingsStartingAt(bs: seq<Booking>, roomId: Option<RoomId>, day: Day, h: nat): (r: seq<Booking>)
    ensures forall b :: b in r <==> b in bs && OnRoomDay(b, roomId, day) && StartHour(b) == Some(h)
  {
    Filter(bs, (b: Booking) => OnRoomDay(b, roomId, day) && StartHour(b) == Some(h))
  }

  /** A cell of the week view is occupied when either of the first two rooms
      has a booking covering its hour. */
  predicate CellOccupied(bs: seq<Booking>, rooms: seq<Room>, day: Day, h: nat)
    ensures CellOccupied(bs, rooms, day, h) <==>
              exists b :: b in bs && CoversHour(b, h) &&
                (OnRoomDay(b, RoomIdAt(rooms, 0), day) || OnRoomDay(b, RoomIdAt(rooms, 1), day))
  {
    |BookingsForSlot(bs, RoomIdAt(rooms, 0), day, h)| > 0 ||
    |BookingsForSlot(bs, RoomIdAt(rooms, 1), day, h)| > 0
  }

  /** The week view offers the "add" target exactly on the cells that are not occupied. */
  predicate CellOffersAdd(bs: seq<Booking>, rooms: seq<Room>, day: Day, h: nat)
    ensures CellOffersAdd(bs, rooms, day, h) <==>
              forall b :: b in bs && CoversHour(b, h) ==>
                !OnRoomDay(b, RoomIdAt(rooms, 0), day) && !OnRoomDay(b, RoomIdAt(rooms, 1), day)
  {
    !CellOccupied(bs, rooms, day, h)
  }

  /** The hour test says: the booking starts in or before hour `h` and ends
      after `h:00`. */
  lemma CoversHourIff(b: Booking, h: nat)
    ensures CoversHour(b, h) <==>
              b.startTime.Some? && b.endTime.Some? && b.startTime.value / 60 <= h && h * 60 < b.endTime.value
  {
    if b.endTime.Some? {
      var e := b.endTime.value;
      assert e == 60 * (e / 60) + e % 60;
      if e % 60 > 0 {
        assert h < e / 60 + 1 <==> h * 60 < e;
      } else {
        assert h < e / 60 <==> h * 60 < e;
      }
    }
  }

  /** When no booking ends after 20:00, as none chosen on the booking form's
      grid does, the 20:00 row offers "add" on every day. */
  lemma LastRowOffersAdd(bs: seq<Booking>, rooms: seq<Room>, day: Day)
    requires forall b :: b in bs && b.endTime.Some? ==> b.endTime.value <= DayEnd
    ensures CellOffersAdd(bs, rooms, day, 20)
  {
    forall b | b in bs ensures !CoversHour(b, 20) {
      CoversHourIff(b, 20);
    }
    FilterNone(bs, (b: Booking) => OnRoomDay(b, RoomIdAt(rooms, 0), day) && CoversHour(b, 20));
    FilterNone(bs, (b: Booking) => OnRoomDay(b, RoomIdAt(rooms, 1), day) && CoversHour(b, 20));
  }

  /** A booking drawn from a cell (it starts in that hour) also makes the cell
      occupied, as long as it ends after it starts. */
  lemma StartingIsCovering(bs: seq<Booking>, roomId: Option<RoomId>, day: Day, h: nat, b: Booking)
    requires b in BookingsStartingAt(bs, roomId, day, h)
    requires b.endTime.Some? && b.startTime.value < b.endTime.value
    ensures b in BookingsForSlot(bs, roomId, day, h)
  {
    CoversHourIff(b, h);
    assert h * 60 <= b.startTime.value;
  }

  /** A booking missing either time covers no hour; one missing its start is
      also never drawn, while one missing only its end is still drawn at its
      start hour. */
  lemma MissingTimesNeverShown(bs: seq<Booking>, roomId: Option<RoomId>, day: Day, h: nat, b: Booking)
    requires b.startTime.None? || b.endTime.None?
    ensures b !in BookingsForSlot(bs, roomId, day, h)
    ensures b.startTime.None? ==> b !in BookingsStartingAt(bs, roomId, day, h)
  {
  }

  /** The bookings of one room on one day, in the order given: what the
      booking form fetches for its room and date. */
  function DayOfRoom(bs: seq<Booking>, roomId: Option<RoomId>, day: Day): (r: seq<Booking>)
    ensures forall b :: b in r <==> b in bs && OnRoomDay(b, roomId, day)
  {
    Filter(bs, (b: Booking) => OnRoomDay(b, roomId, day))
  }

  /** A slot of the booking form's grid that lies in hour `h` is free for a room
      whenever the room has no booking covering that hour in the calendar. */
  lemma FreeHourFreesSlots(bs: seq<Booking>, roomId: Option<RoomId>, day: Day, h: nat, t: Minute)
    requires |BookingsForSlot(bs, roomId, day, h)| == 0
    requires h * 60 <= t < h * 60 + 60
    ensures !IsSlotOccupied(DayOfRoom(bs, roomId, day), t)
  {
    var own := DayOfRoom(bs, roomId, day);
    forall i | 0 <= i < |own| ensures !Covers(own[i], t) {
      CoversHourIff(own[i], h);
      assert own[i] !in BookingsForSlot(bs, roomId, day, h);
    }
  }

  /** A cell that offers "add" leaves the whole hour free, on the booking
      form's grid, for each of the first two rooms. */
  lemma FreeCellFreesHour(bs: seq<Booking>, rooms: seq<Room>, day: Day, h: nat)
    requires CellOffersAdd(bs, rooms, day, h)
    ensures FreeRange(DayOfRoom(bs, RoomIdAt(rooms, 0), day), h * 60, h * 60 + 60)
    ensures FreeRange(DayOfRoom(bs, RoomIdAt(rooms, 1), day), h * 60, h * 60 + 60)
  {
    forall i | 0 <= i < SlotCount && h * 60 <= TimeSlots()[i] < h * 60 + 60
      ensures !IsSlotOccupied(DayOfRoom(bs, RoomIdAt(rooms, 0), day), TimeSlots()[i])
      ensures !IsSlotOccupied(DayOfRoom(bs, RoomIdAt(rooms, 1), day), TimeSlots()[i])
    {
      FreeHourFreesSlots(bs, RoomIdAt(rooms, 0), day, h, TimeSlots()[i]);
      FreeHourFreesSlots(bs, RoomIdAt(rooms, 1), day, h, TimeSlots()[i]);
    }
  }
}
