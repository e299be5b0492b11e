/** The signed-in user's bookings page (MyBookingsPage.jsx): the split of the
    user's bookings into upcoming and past at today's date, and the room a
    booking card shows. */
module MyBookings {
  import opened Common
  import opened Records

  /** The name shown when a booking's room is not in the room list or has no name. */
  const FallbackRoomName: string := "Зал"

  /** `upcoming`: the bookings dated today or later, in list order. */
  function UpcomingOf(bs: seq<Booking>, today: Day): (r: seq<Booking>)
    ensures forall b :: b in r <==> b in bs && b.date >= today
  {
    Filter(bs, (b: Booking) => b.date >= today)
  }

  /** `past`: the bookings dated before today, in list order. */
  function PastOf(bs: seq<Booking>, today: Day): (r: seq<Booking>)
    ensures forall b :: b in r <==> b in bs && b.date < today
  {
    Filter(bs, (b: Booking) => b.date < today)
  }

  /** The two lists split the user's bookings: each booking is in exactly one
      of them, as many times as in the list. */
  lemma PartitionAtToday(bs: seq<Booking>, today: Day)
    ensures multiset(UpcomingOf(bs, today)) + multiset(PastOf(bs, today)) == multiset(bs)
    ensures |UpcomingOf(bs, today)| + |PastOf(bs, today)| == |bs|
  {
    FilterSplit(bs, (b: Booking) => b.date >= today, (b: Booking) => b.date < today);
    assert |multiset(UpcomingOf(bs, today))| + |multiset(PastOf(bs, today))| == |multiset(bs)|;
  }

  /** Both lists keep the relative order of the bookings they retain: split
      the list anywhere, and each list is its part of the front followed by
      its part of the back. */
  lemma ListsKeepOrder(front: seq<Booking>, back: seq<Booking>, today: Day)
    ensures UpcomingOf(front + back, today) == UpcomingOf(front, today) + UpcomingOf(back, today)
    ensures PastOf(front + back, today) == PastOf(front, today) + PastOf(back, today)
  {
    FilterConcat(front, back, (b: Booking) => b.date >= today);
    FilterConcat(front, back, (b: Booking) => b.date < today);
  }

  /** The bookings arrive sorted by date, so the past ones come first and the
      two lists are the list cut at today. */
  lemma {:induction false} SortedSplitsAtToday(bs: seq<Booking>, today: Day)
    requires SortedByDate(bs)
    ensures PastOf(bs, today) + UpcomingOf(bs, today) == bs
  {
    if bs != [] {
      if bs[0].date < today {
        SortedTail(bs);
        SortedSplitsAtToday(bs[1..], today);
        PastFirst(bs, today);
      } else {
        AllUpcoming(bs, today);
      }
    }
  }

  /** The rest of a sorted list is sorted. */
  lemma SortedTail(bs: seq<Booking>)
    requires |bs| > 0 && SortedByDate(bs)
    ensures SortedByDate(bs[1..])
  {
    var rest := bs[1..];
    forall i, j | 0 <= i < j < |rest| ensures rest[i].date <= rest[j].date {
      assert rest[i] == bs[i + 1] && rest[j] == bs[j + 1];
    }
  }

  /** A past first booking goes in front of the split of the rest. */
  lemma PastFirst(bs: seq<Booking>, today: Day)
    requires |bs| > 0 && bs[0].date < today
    requires PastOf(bs[1..], today) + UpcomingOf(bs[1..], today) == bs[1..]
    ensures PastOf(bs, today) + UpcomingOf(bs, today) == bs
  {
    assert [bs[0]] + bs[1..] == bs;
    ConsSplit(bs[0], PastOf(bs[1..], today), UpcomingOf(bs[1..], today), bs[1..]);
    PastHead(bs, today);
  }

  /** Putting one element in front of the first part puts it in front of the whole. */
  lemma ConsSplit(b: Booking, front: seq<Booking>, back: seq<Booking>, whole: seq<Booking>)
    requires front + back == whole
    ensures ([b] + front) + back == [b] + whole
  {
  }

  /** A past first booking heads the past list and is not upcoming. */
  lemma PastHead(bs: seq<Booking>, today: Day)
    requires |bs| > 0 && bs[0].date < today
    ensures PastOf(bs, today) == [bs[0]] + PastOf(bs[1..], today)
    ensures UpcomingOf(bs, today) == UpcomingOf(bs[1..], today)
  {
  }

  /** When the earliest booking is not past, none is. */
  lemma AllUpcoming(bs: seq<Booking>, today: Day)
    requires SortedByDate(bs) && |bs| > 0 && bs[0].date >= today
    ensures PastOf(bs, today) == [] && UpcomingOf(bs, today) == bs
  {
    forall c | c in bs ensures c.date >= today {
      var i :| 0 <= i < |bs| && bs[i] == c;
      assert bs[0].date <= bs[i].date;
    }
    FilterNone(bs, (c: Booking) => c.date < today);
    FilterAll(bs, (c: Booking) => c.date >= today);
  }

  /** What a booking card shows about its room. */
  datatype RoomInfo = RoomInfo(index: int, name: string)

  /** `getRoomInfo(booking)`: the room's position in the room list and its
      name, with the fallback name for a room that is missing or unnamed. */
  function GetRoomInfo(rooms: seq<Room>, b: Booking): (info: RoomInfo)
    ensures -1 <= info.index < |rooms|
    ensures info.index == -1 <==> forall i :: 0 <= i < |rooms| ==> Some(rooms[i].id) != BookingRoomId(b)
    ensures info.index >= 0 ==> Some(rooms[info.index].id) == BookingRoomId(b) &&
                                forall i :: 0 <= i < info.index ==> Some(rooms[i].id) != BookingRoomId(b)
    ensures info.index >= 0 && rooms[info.index].name != "" ==> info.name == rooms[info.index].name
    ensures info.index == -1 || rooms[info.index].name == "" ==> info.name == FallbackRoomName
    ensures info.name != ""
  {
    var k := FindRoomIndex(rooms, BookingRoomId(b));
    // `rooms[-1]` is undefined, and so is its name
    var name := if k >= 0 && rooms[k].name != "" then rooms[k].name else FallbackRoomName;
    RoomInfo(k, name)
  }
}
