/** The records the client receives from the back end: rooms and bookings. */
module Records {
  import opened Common

  /** Minutes since midnight; "HH:MM" text orders the same way (see TimeText). */
  type Minute = nat

  /** A calendar date as a day number; "YYYY-MM-DD" text orders the same way. */
  type Day = nat

  /** Record ids handed out by the back end are positive, so a present id is truthy. */
  type RecordId = x: int | x > 0 witness 1

  type RoomId = RecordId

  datatype Room = Room(id: RoomId, name: string)

  /** A booking's `room` relation as it arrives: either `{ id }` or `{ data: { id } }`. */
  datatype RoomRef = RoomRef(id: Option<RoomId>, dataId: Option<RoomId>)

  /** A booking as fetched. A time is `None` when the field is missing (`null`
      or `undefined`); a present time is the minute of zero-padded "HH:MM" or
      "HH:MM:00.000" text, the form the client itself sends. */
  datatype Booking = Booking(
    documentId: string,
    room: Option<RoomRef>,
    date: Day,
    startTime: Option<Minute>,
    endTime: Option<Minute>,
    bookerName: string,
    department: string,
    topic: string,
    cancelCode: Option<string>,
    userId: Option<RecordId>)

  /** Dates never decrease along the list (the order `getBookings` asks the
      back end for, and the order of the upcoming list). */
  predicate SortedByDate(xs: seq<Booking>)
  {
    forall i, j :: 0 <= i < j < |xs| ==> xs[i].date <= xs[j].date
  }

  /** `b.room?.id || b.room?.data?.id`: the room a booking belongs to, if any. */
  function BookingRoomId(b: Booking): (r: Option<RoomId>)
    ensures r.Some? <==> b.room.Some? && (b.room.value.id.Some? || b.room.value.dataId.Some?)
    ensures r.Some? && b.room.value.id.Some? ==> r == b.room.value.id
    ensures r.Some? && b.room.value.id.None? ==> r == b.room.value.dataId
  {
    match b.room
    case None => None
    case Some(ref) => ref.id.OrElse(ref.dataId)
  }

  /** `rooms.findIndex((r) => r.id === roomId)`. */
  function FindRoomIndex(rooms: seq<Room>, roomId: Option<RoomId>): (k: int)
    ensures -1 <= k < |rooms|
    ensures k == -1 <==> forall i :: 0 <= i < |rooms| ==> Some(rooms[i].id) != roomId
    ensures k >= 0 ==> Some(rooms[k].id) == roomId
    ensures k >= 0 ==> forall i :: 0 <= i < k ==> Some(rooms[i].id) != roomId
  {
    FindIndex(rooms, (r: Room) => Some(r.id) == roomId)
  }

  /** `rooms[k]?.id`: the id of the k-th room, absent when there is no such room. */
  function RoomIdAt(rooms: seq<Room>, k: nat): Option<RoomId>
  {
    if k < |rooms| then Some(rooms[k].id) else None
  }
}
