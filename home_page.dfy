/** The schedule page (HomePage.jsx): the list of upcoming bookings beside the
    calendar, grouped by date; the colour index of a booking's room; and the
    booking form opened from a free calendar cell. */
module HomePage {
  import opened Common
  import opened Records
  import opened TimeText
  import opened SlotGrid
  import opened Calendar
  import opened BookingFormState

  /** The page shows at most this many upcoming bookings. */
  const UpcomingLimit: nat := 10

  /** The filter of `upcomingBookings`: a later date, or today with the
      "HH:MM" prefix of the stored end after the "HH:mm" text of the current
      time. A booking with no end is not upcoming today. */
  predicate IsUpcoming(b: Booking, today: Day, now: Minute)
    ensures b.endTime.Some? && b.endTime.value < MinutesPerDay && now < MinutesPerDay ==>
              (IsUpcoming(b, today, now) <==>
                 b.date > today || (b.date == today && LexLess(Format(now), StoredForm(b.endTime.value)[..5])))
    ensures b.endTime.None? ==> (IsUpcoming(b, today, now) <==> b.date > today)
  {
    if b.endTime.Some? && b.endTime.value < MinutesPerDay && now < MinutesPerDay then
      // on the text the filter compares, the comparison is that of minutes
      UpcomingTimeText(b.endTime.value, now);
      b.date > today || (b.date == today && b.endTime.value > now)
    else
      b.date > today || (b.date == today && b.endTime.Some? && b.endTime.value > now)
  }

  /** The filter compares the first five characters of the stored end with the
      "HH:mm" text of the current time; on that text the comparison is the
      comparison of minutes. */
  lemma UpcomingTimeText(e: Minute, now: Minute)
    requires e < 1440 && now < 1440
    ensures StoredForm(e)[..5] == Format(e)
    ensures LexLess(Format(now), StoredForm(e)[..5]) <==> now < e
  {
    assert StoredForm(e)[..5] == Format(e);
    FormatOrder(now, e);
  }

  /** The comparator's order on starts: a missing start counts as the empty
      text, which sorts first. */
  predicate StartLe(a: Option<Minute>, b: Option<Minute>)
  {
    a.None? || (b.Some? && a.value <= b.value)
  }

  /** The comparator's order: by date, then by start. */
  predicate KeyLe(a: Booking, b: Booking)
  {
    a.date < b.date || (a.date == b.date && StartLe(a.startTime, b.startTime))
  }

  predicate SortedByKey(xs: seq<Booking>)
  {
    forall i, j :: 0 <= i < j < |xs| ==> KeyLe(xs[i], xs[j])
  }

  /** Inserting into a sorted list. */
  function Insert(x: Booking, xs: seq<Booking>): (r: seq<Booking>)
    requires SortedByKey(xs)
    ensures multiset(r) == multiset(xs) + multiset{x}
    ensures forall z :: z in r <==> z == x || z in xs
    ensures SortedByKey(r)
  {
    if xs == [] then [x]
    else if KeyLe(x, xs[0]) then [x] + xs
    else
      assert xs == [xs[0]] + xs[1..];
      var rest := Insert(x, xs[1..]);
      assert KeyLe(xs[0], x);
      assert forall z :: z in xs[1..] ==> KeyLe(xs[0], z);
      ConsSorted(xs[0], rest);
      [xs[0]] + rest
  }

  /** A sorted list stays sorted under a head that sorts before all of it. */
  lemma ConsSorted(h: Booking, rest: seq<Booking>)
    requires SortedByKey(rest) && forall z :: z in rest ==> KeyLe(h, z)
    ensures SortedByKey([h] + rest)
  {
    var r := [h] + rest;
    forall i, j | 0 <= i < j < |r| ensures KeyLe(r[i], r[j]) {
      assert r[j] == rest[j - 1];
      if i > 0 {
        assert r[i] == rest[i - 1];
      }
    }
  }

  /** `.sort(...)` with the page's comparator: the list in date-then-start order. */
  function SortByKey(xs: seq<Booking>): (r: seq<Booking>)
    ensures multiset(r) == multiset(xs)
    ensures SortedByKey(r)
  {
    if xs == [] then []
    else
      assert xs == [xs[0]] + xs[1..];
      Insert(xs[0], SortByKey(xs[1..]))
  }

  /** The bookings that pass the filter, in the order loaded. */
  function UpcomingCandidates(all: seq<Booking>, today: Day, now: Minute): (c: seq<Booking>)
    ensures forall b :: b in c <==> b in all && IsUpcoming(b, today, now)
    ensures multiset(c) <= multiset(all)
  {
    Filter(all, (b: Booking) => IsUpcoming(b, today, now))
  }

  /** A prefix of a sorted list is sorted and takes nothing the list lacks. */
  lemma PrefixOfSorted(s: seq<Booking>, k: nat)
    requires k <= |s| && SortedByKey(s)
    ensures SortedByKey(s[..k])
    ensures multiset(s[..k]) <= multiset(s)
    ensures forall b :: b in s[..k] ==> b in multiset(s)
  {
    assert s == s[..k] + s[k..];
  }

  /** `upcomingBookings`: filtered, sorted, and cut to the first ten. */
  function UpcomingBookings(all: seq<Booking>, today: Day, now: Minute): (r: seq<Booking>)
    ensures |r| <= UpcomingLimit
    ensures SortedByKey(r)
    ensures forall b :: b in r ==> b in all && IsUpcoming(b, today, now)
    ensures multiset(r) <= multiset(all)
  {
    var s := SortByKey(UpcomingCandidates(all, today, now));
    var k := if |s| < UpcomingLimit then |s| else UpcomingLimit;
    PrefixOfSorted(s, k);
    s[..k]
  }

  /** The list is the earliest upcoming bookings: all of them when there are at
      most ten, and otherwise none left out comes before one shown. */
  lemma UpcomingAreEarliest(all: seq<Booking>, today: Day, now: Minute)
    ensures |UpcomingCandidates(all, today, now)| <= UpcomingLimit ==>
              multiset(UpcomingBookings(all, today, now)) == multiset(UpcomingCandidates(all, today, now))
    ensures |UpcomingCandidates(all, today, now)| > UpcomingLimit ==> |UpcomingBookings(all, today, now)| == UpcomingLimit
    ensures forall x, y ::
              (x in UpcomingBookings(all, today, now) &&
               y in multiset(UpcomingCandidates(all, today, now)) - multiset(UpcomingBookings(all, today, now)))
              ==> KeyLe(x, y)
  {
    var c := UpcomingCandidates(all, today, now);
    var s := SortByKey(c);
    var k := if |s| < UpcomingLimit then |s| else UpcomingLimit;
    var r := UpcomingBookings(all, today, now);
    assert r == s[..k];
    SortedSplit(s, k);
  }

  /** Splitting a sorted list: what is cut off is the rest of the multiset,
      and none of it comes before what is kept. */
  lemma SortedSplit(s: seq<Booking>, k: nat)
    requires k <= |s| && SortedByKey(s)
    ensures multiset(s) - multiset(s[..k]) == multiset(s[k..])
    ensures forall x, y :: (x in s[..k] && y in multiset(s[k..])) ==> KeyLe(x, y)
  {
    assert s == s[..k] + s[k..];
    forall x, y | x in s[..k] && y in multiset(s[k..]) ensures KeyLe(x, y) {
      var i :| 0 <= i < k && s[i] == x;
      assert y in s[k..];
      var j :| k <= j < |s| && s[j] == y;
    }
  }

  /** The distinct dates of a list, in order of first appearance: the keys of
      the grouping object, which `Object.entries` lists in insertion order. */
  function DatesOf(xs: seq<Booking>): (ds: seq<Day>)
    ensures forall i, j :: 0 <= i < j < |ds| ==> ds[i] != ds[j]
  {
    if xs == [] then []
    else
      var p := xs[..|xs| - 1];
      var x := xs[|xs| - 1];
      var prefix := DatesOf(p);
      if x.date in prefix then prefix else prefix + [x.date]
  }

  /** Appending a booking adds its date at the end when the date is new. */
  lemma DatesOfAppend(p: seq<Booking>, x: Booking)
    ensures DatesOf(p + [x]) == if x.date in DatesOf(p) then DatesOf(p) else DatesOf(p) + [x.date]
  {
    assert (p + [x])[..|p|] == p;
  }

  /** The dates listed are exactly the dates the bookings have. */
  lemma {:induction false} DatesOfMembers(xs: seq<Booking>)
    ensures forall d :: d in DatesOf(xs) <==> exists b :: b in xs && b.date == d
  {
    if xs != [] {
      var p, x := xs[..|xs| - 1], xs[|xs| - 1];
      assert xs == p + [x];
      DatesOfMembers(p);
      DatesOfAppend(p, x);
    }
  }

  /** The bookings of one date, in list order: one group. */
  function OnDate(xs: seq<Booking>, d: Day): (r: seq<Booking>)
    ensures forall b :: b in r <==> b in xs && b.date == d
  {
    Filter(xs, (b: Booking) => b.date == d)
  }

  /** Appending a booking appends it to its own date's group only. */
  lemma OnDateAppend(p: seq<Booking>, x: Booking, d: Day)
    ensures OnDate(p + [x], d) == OnDate(p, d) + (if x.date == d then [x] else [])
  {
    FilterConcat(p, [x], (b: Booking) => b.date == d);
    assert [x][1..] == [];
  }

  /** A date no booking has has an empty group. */
  lemma OnDateEmpty(xs: seq<Booking>, d: Day)
    requires d !in DatesOf(xs)
    ensures OnDate(xs, d) == []
  {
    DatesOfMembers(xs);
    FilterNone(xs, (b: Booking) => b.date == d);
  }

  /** The grouping object after the bookings `p`: its keys in insertion order
      are the dates of `p`, and each key holds that date's bookings. */
  ghost predicate Grouped(p: seq<Booking>, keys: seq<Day>, m: map<Day, seq<Booking>>)
  {
    keys == DatesOf(p) && (forall d :: d in m <==> d in keys) &&
    (forall d :: d in m ==> m[d] == OnDate(p, d))
  }

  /** One step of the grouping keeps the object grouped. */
  lemma GroupStep(p: seq<Booking>, b: Booking, keys: seq<Day>, m: map<Day, seq<Booking>>,
                  keys': seq<Day>, m': map<Day, seq<Booking>>)
    requires Grouped(p, keys, m)
    requires keys' == (if b.date in m then keys else keys + [b.date])
    requires m' == m[b.date := (if b.date in m then m[b.date] else []) + [b]]
    ensures Grouped(p + [b], keys', m')
  {
    DatesOfAppend(p, b);
    forall d | d in m' ensures m'[d] == OnDate(p + [b], d) {
      OnDateAppend(p, b, d);
      if d == b.date && b.date !in m {
        OnDateEmpty(p, d);
      }
    }
  }

  /** `groupedBookings`: the `forEach` that pushes each booking onto the list
      of its date, then `Object.entries`. */
  method GroupByDate(xs: seq<Booking>) returns (groups: seq<(Day, seq<Booking>)>)
    ensures |groups| == |DatesOf(xs)|
    ensures forall i :: 0 <= i < |groups| ==> groups[i] == (DatesOf(xs)[i], OnDate(xs, DatesOf(xs)[i]))
  {
    var keys: seq<Day> := [];
    var m: map<Day, seq<Booking>> := map[];
    assert xs[..0] == [];
    for i := 0 to |xs|
      invariant Grouped(xs[..i], keys, m)
    {
      var b := xs[i];
      assert xs[..i + 1] == xs[..i] + [b];
      // `if (!groups[b.date]) groups[b.date] = []; groups[b.date].push(b);`
      var keys' := if b.date in m then keys else keys + [b.date];
      var m' := m[b.date := (if b.date in m then m[b.date] else []) + [b]];
      GroupStep(xs[..i], b, keys, m, keys', m');
      keys, m := keys', m';
    }
    assert xs[..|xs|] == xs;
    assert Grouped(xs, keys, m);
    groups := seq(|keys|, j requires 0 <= j < |keys| => (keys[j], m[keys[j]]));
  }

  /** The groups of a list sorted by date come in increasing date order. */
  lemma {:induction false} DatesAscending(xs: seq<Booking>)
    requires SortedByDate(xs)
    ensures forall i, j :: 0 <= i < j < |DatesOf(xs)| ==> DatesOf(xs)[i] < DatesOf(xs)[j]
  {
    if xs != [] {
      var p, x := xs[..|xs| - 1], xs[|xs| - 1];
      assert xs == p + [x];
      assert SortedByDate(p);
      DatesAscending(p);
      DatesOfAppend(p, x);
      DatesOfMembers(p);
      var ds := DatesOf(p);
      forall i | 0 <= i < |ds| ensures ds[i] <= x.date {
        assert ds[i] in ds;
        var b :| b in p && b.date == ds[i];
        var k :| 0 <= k < |p| && p[k] == b;
        assert xs[k] == b;
      }
      if x.date !in ds {
        assert DatesOf(xs) == ds + [x.date];
        forall i | 0 <= i < |ds| ensures ds[i] < x.date {
          assert ds[i] in ds;
        }
      }
    }
  }

  /** The groups written one after the other. */
  function Concat(xs: seq<Booking>, ds: seq<Day>): seq<Booking>
  {
    if ds == [] then [] else Concat(xs, ds[..|ds| - 1]) + OnDate(xs, ds[|ds| - 1])
  }

  /** A booking whose date has no group among `ds` changes none of their groups. */
  lemma {:induction false} ConcatIgnores(p: seq<Booking>, x: Booking, ds: seq<Day>)
    requires x.date !in ds
    ensures Concat(p + [x], ds) == Concat(p, ds)
  {
    if ds != [] {
      ConcatIgnores(p, x, ds[..|ds| - 1]);
      OnDateAppend(p, x, ds[|ds| - 1]);
    }
  }

  /** A booking whose date is new closes the list with a group of its own. */
  lemma ReassembleNewDate(p: seq<Booking>, x: Booking)
    requires Concat(p, DatesOf(p)) == p && x.date !in DatesOf(p)
    ensures Concat(p + [x], DatesOf(p + [x])) == p + [x]
  {
    var ds := DatesOf(p);
    DatesOfAppend(p, x);
    assert (ds + [x.date])[..|ds|] == ds;
    ConcatIgnores(p, x, ds);
    OnDateAppend(p, x, x.date);
    OnDateEmpty(p, x.date);
  }

  /** A booking whose date is already the latest joins the last group. */
  lemma ReassembleLastDate(p: seq<Booking>, x: Booking)
    requires Concat(p, DatesOf(p)) == p && |DatesOf(p)| > 0 && DatesOf(p)[|DatesOf(p)| - 1] == x.date
    ensures Concat(p + [x], DatesOf(p + [x])) == p + [x]
  {
    var ds := DatesOf(p);
    var front := ds[..|ds| - 1];
    DistinctLast(ds);
    DatesOfAppend(p, x);
    ConcatIgnores(p, x, front);
    OnDateAppend(p, x, x.date);
    var head, group := Concat(p, front), OnDate(p, x.date);
    calc {
      Concat(p + [x], DatesOf(p + [x]));
      Concat(p + [x], front) + OnDate(p + [x], x.date);
      head + (group + [x]);
      (head + group) + [x];
      Concat(p, ds) + [x];
    }
  }

  /** In a list without repeats the last element is not among the others. */
  lemma DistinctLast(ds: seq<Day>)
    requires |ds| > 0 && forall i, j :: 0 <= i < j < |ds| ==> ds[i] != ds[j]
    ensures ds[|ds| - 1] !in ds[..|ds| - 1]
  {
    var front := ds[..|ds| - 1];
    forall i | 0 <= i < |front| ensures front[i] != ds[|ds| - 1] {
      assert front[i] == ds[i];
    }
  }

  /** In a list sorted by date, the date of a booking that is not after any
      earlier one is either new or the last of the dates so far. */
  lemma LatestDateIsLast(p: seq<Booking>, x: Booking)
    requires SortedByDate(p) && (forall b :: b in p ==> b.date <= x.date) && x.date in DatesOf(p)
    ensures |DatesOf(p)| > 0 && DatesOf(p)[|DatesOf(p)| - 1] == x.date
  {
    var ds := DatesOf(p);
    DatesAscending(p);
    DatesOfMembers(p);
    var k :| 0 <= k < |ds| && ds[k] == x.date;
    assert ds[|ds| - 1] in ds;
    var b :| b in p && b.date == ds[|ds| - 1];
    assert ds[|ds| - 1] <= ds[k];
  }

  /** Read one group after another, the groups of a list sorted by date give
      back the list itself: grouping loses, adds and reorders nothing. */
  lemma {:induction false} GroupsReassemble(xs: seq<Booking>)
    requires SortedByDate(xs)
    ensures Concat(xs, DatesOf(xs)) == xs
  {
    if xs != [] {
      var p, x := xs[..|xs| - 1], xs[|xs| - 1];
      assert xs == p + [x];
      assert SortedByDate(p);
      forall b | b in p ensures b.date <= x.date {
        var i :| 0 <= i < |p| && p[i] == b;
        assert xs[i] == b;
      }
      GroupsReassemble(p);
      if x.date in DatesOf(p) {
        LatestDateIsLast(p, x);
        ReassembleLastDate(p, x);
      } else {
        ReassembleNewDate(p, x);
      }
    }
  }

  /** The upcoming list is sorted by date, so its groups show the same
      bookings in the same order, under increasing dates. */
  lemma UpcomingGroupsReassemble(all: seq<Booking>, today: Day, now: Minute)
    ensures Concat(UpcomingBookings(all, today, now), DatesOf(UpcomingBookings(all, today, now))) ==
            UpcomingBookings(all, today, now)
    ensures forall i, j :: 0 <= i < j < |DatesOf(UpcomingBookings(all, today, now))| ==>
              DatesOf(UpcomingBookings(all, today, now))[i] < DatesOf(UpcomingBookings(all, today, now))[j]
  {
    var r := UpcomingBookings(all, today, now);
    assert SortedByDate(r) by {
      forall i, j | 0 <= i < j < |r| ensures r[i].date <= r[j].date {
        assert KeyLe(r[i], r[j]);
      }
    }
    GroupsReassemble(r);
    DatesAscending(r);
  }

  /** `getRoomIndex(booking)`: the position of the booking's room in the room list, or -1. */
  function GetRoomIndex(rooms: seq<Room>, b: Booking): (k: int)
    ensures -1 <= k < |rooms|
    ensures k == -1 <==> forall i :: 0 <= i < |rooms| ==> Some(rooms[i].id) != BookingRoomId(b)
    ensures k >= 0 ==> Some(rooms[k].id) == BookingRoomId(b)
    ensures k >= 0 ==> forall i :: 0 <= i < k ==> Some(rooms[i].id) != BookingRoomId(b)
  {
    FindRoomIndex(rooms, BookingRoomId(b))
  }

  /** A click on a free calendar cell (any of the rows 8 to 20) opens the
      booking form with that hour selected (with the prefill kept), for the
      first room and the cell's day. Once the form has that room's bookings
      for the day, the selection of a row before 20 is a free range of the
      grid, the state the grid clicks keep. The 20:00 row, which is free on
      every day (`LastRowOffersAdd`), selects 20:00-21:00, whose end is not a
      boundary of the grid. */
  method OpenFormFromFreeCell(bs: seq<Booking>, rooms: seq<Room>, day: Day, h: nat) returns (form: BookingForm)
    requires |rooms| > 0 && h in Hours() && CellOffersAdd(bs, rooms, day, h)
    ensures form.roomId == Some(rooms[0].id) && form.date == Some(day)
    ensures form.startSlot == Some(h * 60) && form.endSlot == Some(h * 60 + 60)
    ensures form.dayBookings == DayOfRoom(bs, Some(rooms[0].id), day)
    ensures form.phase == PickStart && form.Valid()
    ensures h < 20 ==> form.Consistent()
    ensures h == 20 ==> form.endSlot.value !in TimeSlots() && !form.Consistent()
  {
    form := new BookingForm.KeepingPrefill(rooms, None, Some(day), Some(h), day);
    form.SlotsLoaded(Some(DayOfRoom(bs, form.roomId, day)));
    if h < 20 {
      FreeCellFreesHour(bs, rooms, day, h);
      assert TimeSlots()[2 * (h - 8)] == h * 60;
      assert TimeSlots()[2 * (h - 8) + 2] == h * 60 + 60;
    } else {
      PastLastBoundary(h * 60 + 60);
    }
  }
}
