/** Request shaping for the bookings endpoint (api/bookings.js): the query of
    `getBookings`, the payload of `createBooking` and the decision of
    `cancelBookingByCode`. The HTTP calls themselves are not modelled. */
module BookingsApi {
  import opened Common
  import opened Records
  import opened TimeText

  /** `toStrapiTime`: "HH:MM" text (five characters) gets ":00.000" appended;
      any other text, and an absent value, is passed through. */
  function ToStrapiTime(time: Option<string>): (r: Option<string>)
    ensures r.None? <==> time.None?
    ensures r.Some? ==> time.value <= r.value
    ensures r.Some? && |time.value| == 5 ==> |r.value| == 12 && r.value[5..] == ":00.000"
    ensures r.Some? && |time.value| != 5 ==> r == time
  {
    match time
    case None => None
    case Some(t) => if |t| == 5 then Some(t + ":00.000") else time
  }

  /** Normalising twice is normalising once. */
  lemma ToStrapiTimeIdempotent(time: Option<string>)
    ensures ToStrapiTime(ToStrapiTime(time)) == ToStrapiTime(time)
    ensures time.Some? && |time.value| == 5 ==> |ToStrapiTime(time).value| == 12
    ensures ToStrapiTime(time).None? <==> time.None?
  {
  }

  /** A time picked on the form ("HH:MM") is sent in the stored form, which is
      exactly the text `isSlotOccupied` builds for a slot; so a stored start or
      end compares with a slot's text as the minute counts compare. */
  lemma FormTimeStoredAsSlotText(start: Minute, end: Minute, t: Minute)
    requires start < 1440 && end < 1440 && t < 1440
    ensures ToStrapiTime(Some(Format(start))) == Some(StoredForm(start))
    ensures (!LexLess(StoredForm(t), ToStrapiTime(Some(Format(start))).value) &&
             LexLess(StoredForm(t), ToStrapiTime(Some(Format(end))).value))
            <==> start <= t < end
  {
    StoredFormOrder(t, start);
    StoredFormOrder(t, end);
  }

  /** The filters `getBookings` accepts. Ids arrive as their decimal text. A
      filter is applied only when its value is truthy (present and non-empty). */
  datatype BookingFilters = BookingFilters(
    date: Option<string>,
    dateFrom: Option<string>,
    dateTo: Option<string>,
    roomId: Option<string>,
    userId: Option<string>)

  /** One `URLSearchParams` entry: a key and its value. */
  type Param = (string, string)

  const PopulateParam: Param := ("populate", "room")
  const SortParam: Param := ("sort", "date:asc,startTime:asc")

  /** The filter keys in the order `getBookings` appends them. */
  const FilterKeys: seq<string> := ["filters[date][$eq]", "filters[date][$gte]", "filters[date][$lte]",
                                    "filters[room][id][$eq]", "filters[userId][$eq]"]

  /** The filter values in the same order as `FilterKeys`. */
  function FilterValues(f: BookingFilters): seq<Option<string>>
  {
    [f.date, f.dateFrom, f.dateTo, f.roomId, f.userId]
  }

  predicate Truthy(v: Option<string>)
  {
    v.Some? && v.value != ""
  }

  /** The entries the first `n` filter checks of `getBookings` append. */
  function FilterEntries(f: BookingFilters, n: nat): seq<Param>
    requires n <= 5
  {
    if n == 0 then []
    else
      var v := FilterValues(f)[n - 1];
      FilterEntries(f, n - 1) + (if Truthy(v) then [(FilterKeys[n - 1], v.value)] else [])
  }

  /** One `if (filters.x) params.append(key, filters.x)` step. */
  method AppendFilter(params: seq<Param>, key: string, v: Option<string>) returns (next: seq<Param>)
    ensures next == params + (if Truthy(v) then [(key, v.value)] else [])
  {
    next := params;
    if Truthy(v) {
      next := next + [(key, v.value)];
    }
  }

  /** The query of `getBookings`: `populate` and `sort`, then the filter entries. */
  method BuildQuery(f: BookingFilters) returns (params: seq<Param>)
    ensures params == [PopulateParam, SortParam] + FilterEntries(f, 5)
  {
    var head := [PopulateParam, SortParam];
    params := AppendFilter(head, FilterKeys[0], f.date);
    assert params == head + FilterEntries(f, 1);
    params := AppendFilter(params, FilterKeys[1], f.dateFrom);
    assert params == head + FilterEntries(f, 2);
    params := AppendFilter(params, FilterKeys[2], f.dateTo);
    assert params == head + FilterEntries(f, 3);
    params := AppendFilter(params, FilterKeys[3], f.roomId);
    assert params == head + FilterEntries(f, 4);
    params := AppendFilter(params, FilterKeys[4], f.userId);
  }

  /** The position of a key in `FilterKeys`, or -1. */
  function KeyPosition(key: string): int
  {
    FindIndex(FilterKeys, (k: string) => k == key)
  }

  /** Each filter key sits at its own position: the five keys are distinct. */
  lemma KeyPositionOfFilterKey(k: nat)
    requires k < 5
    ensures KeyPosition(FilterKeys[k]) == k
  {
    assert |FilterKeys[0]| == 18 && |FilterKeys[1]| == 19 && |FilterKeys[2]| == 19;
    assert |FilterKeys[3]| == 22 && |FilterKeys[4]| == 20;
    assert FilterKeys[1][15] != FilterKeys[2][15];
  }

  /** The filter entries are exactly the truthy filters, each with its own value,
      each once, in the fixed order date, dateFrom, dateTo, roomId, userId. */
  lemma FilterEntriesExact(f: BookingFilters, n: nat)
    requires n <= 5
    ensures forall k :: 0 <= k < n && Truthy(FilterValues(f)[k]) ==>
              (FilterKeys[k], FilterValues(f)[k].value) in FilterEntries(f, n)
    ensures forall e :: e in FilterEntries(f, n) ==>
              0 <= KeyPosition(e.0) < n && Truthy(FilterValues(f)[KeyPosition(e.0)]) &&
              e.1 == FilterValues(f)[KeyPosition(e.0)].value
    ensures forall i, j :: 0 <= i < j < |FilterEntries(f, n)| ==>
              KeyPosition(FilterEntries(f, n)[i].0) < KeyPosition(FilterEntries(f, n)[j].0)
  {
    FilterEntriesComplete(f, n);
    FilterEntriesSound(f, n);
    FilterEntriesOrdered(f, n);
  }

  /** Every truthy filter among the first `n` is emitted. */
  lemma {:induction false} FilterEntriesComplete(f: BookingFilters, n: nat)
    requires n <= 5
    ensures forall k :: 0 <= k < n && Truthy(FilterValues(f)[k]) ==>
              (FilterKeys[k], FilterValues(f)[k].value) in FilterEntries(f, n)
  {
    if n > 0 {
      FilterEntriesComplete(f, n - 1);
    }
  }

  /** Every emitted entry is a truthy filter among the first `n`, with its value. */
  lemma {:induction false} FilterEntriesSound(f: BookingFilters, n: nat)
    requires n <= 5
    ensures forall e :: e in FilterEntries(f, n) ==>
              0 <= KeyPosition(e.0) < n && Truthy(FilterValues(f)[KeyPosition(e.0)]) &&
              e.1 == FilterValues(f)[KeyPosition(e.0)].value
  {
    if n > 0 {
      FilterEntriesSound(f, n - 1);
      KeyPositionOfFilterKey(n - 1);
    }
  }

  /** The entries come in the order of their keys, so each key at most once. */
  lemma {:induction false} FilterEntriesOrdered(f: BookingFilters, n: nat)
    requires n <= 5
    ensures forall i, j :: 0 <= i < j < |FilterEntries(f, n)| ==>
              KeyPosition(FilterEntries(f, n)[i].0) < KeyPosition(FilterEntries(f, n)[j].0)
  {
    if n > 0 {
      var v := FilterValues(f)[n - 1];
      var prev := FilterEntries(f, n - 1);
      FilterEntriesOrdered(f, n - 1);
      if Truthy(v) {
        var all := prev + [(FilterKeys[n - 1], v.value)];
        assert FilterEntries(f, n) == all;
        FilterEntriesSound(f, n - 1);
        KeyPositionOfFilterKey(n - 1);
        forall i, j | 0 <= i < j < |all|
          ensures KeyPosition(all[i].0) < KeyPosition(all[j].0)
        {
          assert all[i] == prev[i];
          if j < |prev| {
            assert all[j] == prev[j];
          } else {
            assert prev[i] in prev;
          }
        }
      } else {
        assert FilterEntries(f, n) == prev;
      }
    }
  }

  /** What the booking form hands to `createBooking`. */
  datatype BookingInput = BookingInput(
    roomId: Option<RoomId>,
    date: Option<Day>,
    startTime: Option<string>,
    endTime: Option<string>,
    bookerName: string,
    department: string,
    topic: string,
    cancelCode: Option<string>,
    userId: Option<RecordId>)

  /** The body `createBooking` posts: the remaining fields as given, both times
      normalised, and the room as a relation to connect. */
  datatype Payload = Payload(
    date: Option<Day>,
    startTime: Option<string>,
    endTime: Option<string>,
    bookerName: string,
    department: string,
    topic: string,
    cancelCode: Option<string>,
    userId: Option<RecordId>,
    connect: seq<Option<RoomId>>)

  /** The payload of `createBooking`. */
  function ShapePayload(d: BookingInput): (p: Payload)
    ensures p.connect == [d.roomId]
    ensures p.startTime == ToStrapiTime(d.startTime) && p.endTime == ToStrapiTime(d.endTime)
    ensures p.date == d.date && p.bookerName == d.bookerName && p.department == d.department
    ensures p.topic == d.topic && p.cancelCode == d.cancelCode && p.userId == d.userId
  {
    Payload(d.date, ToStrapiTime(d.startTime), ToStrapiTime(d.endTime), d.bookerName,
            d.department, d.topic, d.cancelCode, d.userId, [d.roomId])
  }

  /** The input a payload was shaped from, up to the normalisation of its times. */
  function InputOf(p: Payload): BookingInput
    requires |p.connect| == 1
  {
    BookingInput(p.connect[0], p.date, p.startTime, p.endTime, p.bookerName, p.department,
                 p.topic, p.cancelCode, p.userId)
  }

  /** Shaping loses nothing but the time format: the input comes back from the
      payload with its times normalised, and shaping that again gives the same payload. */
  lemma ShapePayloadRoundTrip(d: BookingInput)
    ensures InputOf(ShapePayload(d)) == d.(startTime := ToStrapiTime(d.startTime), endTime := ToStrapiTime(d.endTime))
    ensures ShapePayload(InputOf(ShapePayload(d))) == ShapePayload(d)
  {
    ToStrapiTimeIdempotent(d.startTime);
    ToStrapiTimeIdempotent(d.endTime);
  }

  datatype CancelError = NotFound

  /** The decision of `cancelBookingByCode` on the bookings the code lookup
      returned: "not found" when there are none, otherwise the document id of the
      first, which is the one deleted. */
  function CancelTarget(found: seq<Booking>): (r: Result<string, CancelError>)
    ensures r.Err? <==> found == []
    ensures r.Ok? ==> r.value == found[0].documentId
  {
    if |found| == 0 then Err(NotFound) else Ok(found[0].documentId)
  }

  /** The bookings carrying a cancellation code, in store order: what the lookup
      by code returns. */
  function WithCode(store: seq<Booking>, code: string): seq<Booking>
  {
    Filter(store, (b: Booking) => b.cancelCode == Some(code))
  }

  /** Cancelling by code fails with "not found" exactly when no booking carries
      the code; otherwise it deletes the first booking that does, and no other. */
  lemma CancelByCodeTargetsFirstMatch(store: seq<Booking>, code: string)
    ensures CancelTarget(WithCode(store, code)).Err? <==>
            forall b :: b in store ==> b.cancelCode != Some(code)
    ensures CancelTarget(WithCode(store, code)).Ok? ==>
            exists k :: 0 <= k < |store| && store[k].cancelCode == Some(code) &&
                        store[k].documentId == CancelTarget(WithCode(store, code)).value &&
                        forall j :: 0 <= j < k ==> store[j].cancelCode != Some(code)
  {
    var found := WithCode(store, code);
    if found != [] {
      FilterHead(store, (b: Booking) => b.cancelCode == Some(code));
    } else {
      forall b | b in store ensures b.cancelCode != Some(code) {
        assert b !in found;
      }
    }
  }
}
