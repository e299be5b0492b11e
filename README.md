# Conference-room booking client: slot grid, calendar cells, booking lists, request shaping

This project models the logic of the web client of a conference-room booking
system (NNMC-Mexel/confbook-) and proves properties of it in Dafny. The
covered parts are:

- **The booking form** (`BookingForm.jsx`):
  - the grid of 25 half-hour boundaries from 08:00 to 20:00;
  - the half-open occupancy test;
  - the two-click range selection, with its scan for occupied slots;
  - the per-slot display state;
  - the manual start and end inputs;
  - the submit precondition and request;
  - the room/date reset;
  - the fetch of the day's bookings.
- **The week calendar** (`Calendar.jsx`): the hour-granular occupancy of a cell, the "starts in this hour" filter and the rule for when a cell offers the "add" target.
- **The home page** (`HomePage.jsx`): the upcoming list (filter, sort, first ten), its grouping by date, and `getRoomIndex`.
- **The personal page** (`MyBookingsPage.jsx`): the upcoming/past split at today, and `getRoomInfo`.
- **The bookings API client** (`api/bookings.js`):
  - `toStrapiTime`;
  - the ordered query parameters of `getBookings`;
  - the `createBooking` payload;
  - the not-found decision of `cancelBookingByCode`.
- **The `useBookings` hook** (`hooks/useBookings.js`): a request counter that lets only the latest request update bookings, error and loading. It also handles `skip`.

Modules, one per source file plus shared ones:

| module | file | holds |
|---|---|---|
| `Common` | `common.dfy` | `Option`, `Result`, the order-keeping `Filter` and `FindIndex` |
| `TimeText` | `time_text.dfy` | zero-padded `HH:MM` and `HH:MM:00.000` text, and proofs that it compares as the minutes it denotes |
| `Records` | `records.dfy` | rooms and bookings as fetched, the room id of a booking, `findIndex` over rooms |
| `SlotGrid` | `slot_grid.dfy` | `TIME_SLOTS`, occupancy, the range scan, the slot display state |
| `BookingsApi` | `bookings_api.dfy` | `toStrapiTime`, query parameters, payload, cancel-by-code |
| `BookingFormState` | `booking_form.dfy` | the form as a class whose methods are its event handlers |
| `Calendar` | `calendar.dfy` | hour cells of the week view |
| `HomePage` | `home_page.dfy` | the upcoming list, its date groups, `getRoomIndex`, opening the form from a cell |
| `MyBookings` | `my_bookings.dfy` | the upcoming/past split, `getRoomInfo` |
| `UseBookings` | `use_bookings.dfy` | the hook as a class whose methods are the requests and their answers |

Modelling choices:

- **Times** are minutes since midnight, and **dates** are day numbers. The
  client compares times as strings (`"10:00:00.000" >= "09:30:00.000"`).
  `TimeText.FormatOrder` and `TimeText.StoredFormOrder` prove that for
  zero-padded text this string order is the order of the minutes. So the
  model compares minutes.
- **Missing times:** a time that is missing (`null` or `undefined`) is
  `None`. Every JavaScript comparison with `undefined`, and with the `NaN` its
  hour parses to, is false, so such a booking occupies no slot and covers no
  hour. A present time is assumed to be zero-padded `HH:MM` or `HH:MM:00.000`
  text, the form the client itself sends through `toStrapiTime`; other text
  is under "Left out".
- **Room ids:** `b.room?.id || b.room?.data?.id` is `Option.OrElse`. An absent
  room and an absent `rooms[1]?.id` are both `None`, and they compare equal,
  just as `undefined === undefined` does.
- **Handlers as methods:** React state updates are assignments to fields of a
  class, and each event handler is a method. The booking form's constructor
  runs its mount effects, in source order. The `useBookings` constructor only
  sets the initial state; its mount effect is `RunEffect`, which the caller
  invokes next, as React does after the first render.
- **`TIME_SLOTS.indexOf`** of a start that is missing or typed off the grid
  is -1. The range scan then starts at index -1, where `TIME_SLOTS[-1]` is
  `undefined` and never occupied (`BookingFormState.StartIndex`). The visible
  effect: after a start typed off the grid, such as 12:15, a click on a later
  slot scans every slot from 08:00, so any earlier booking that day refuses
  the range (`BookingFormState.OffGridStartScansFromMorning`).
- **A cleared start input** with no end builds the text `"NaN:NaN"`. That text
  is not `<= "20:00"`, so the end becomes 20:00 (`BookingFormState.PushedEnd`,
  `BookingFormState.TypedStartEndText`).
- **The week calendar** serves two rooms: a cell is occupied when `rooms[0]` or
  `rooms[1]` has a covering booking.
- **The form's fetch has no stale guard** (unlike `useBookings`). Answers are
  applied in the order they arrive (`SlotsLoaded`), so an older answer that
  arrives last wins.
- **`useBookings` never clears `error`.** A later successful answer leaves an
  earlier failure's error in place, and the model does the same.
- **`HomePage.OpenFormFromFreeCell`** links the calendar to the form. It
  assumes the form's fetch for the room and date returns that room's bookings
  of that day, taken from the same list the calendar shows.

## Model

| member | source | states |
|---|---|---|
| `TimeText.FormatOrder` | frontend/src/components/BookingForm/BookingForm.jsx:100 | zero-padded `HH:MM` text is lexicographically smaller exactly when its minute count is smaller, so `slot < startSlot` compares times |
| `TimeText.StoredFormOrder` | frontend/src/components/BookingForm/BookingForm.jsx:23-29 | `HH:MM:00.000` text orders and compares equal exactly as its minutes do, so the occupancy test on stored text is the test on minutes |
| `Records.BookingRoomId` | frontend/src/components/Calendar/Calendar.jsx:47 | a booking's room id is `room.id` when present, otherwise `room.data.id`, and absent when the booking has no room or neither id |
| `Records.FindRoomIndex` | frontend/src/pages/HomePage.jsx:88 | `findIndex` gives -1 exactly when no room has the id, otherwise the first room that has it |
| `SlotGrid.GenerateTimeSlots` | frontend/src/components/BookingForm/BookingForm.jsx:11-19 | the loop yields 25 boundaries from 08:00 to 20:00, each 30 minutes after the one before, strictly increasing |
| `SlotGrid.SelectableSlotsShape` | frontend/src/components/BookingForm/BookingForm.jsx:86 | the selectable slots are the 24 boundaries before 20:00; 20:00 is never a start and every start has a next boundary |
| `SlotGrid.SlotIndex` | frontend/src/components/BookingForm/BookingForm.jsx:94 | `indexOf` gives -1 exactly for a time off the grid, otherwise the position holding that time |
| `SlotGrid.IsSlotOccupied` | frontend/src/components/BookingForm/BookingForm.jsx:23-30 | a slot is occupied iff some booking has start <= slot < end; a booking ending at the slot or with a missing time does not occupy it |
| `SlotGrid.GetSlotBooking` | frontend/src/components/BookingForm/BookingForm.jsx:32-39 | gives a booking iff the slot is occupied, and then the first booking in the list that covers the slot |
| `SlotGrid.RangeBlocked` | frontend/src/components/BookingForm/BookingForm.jsx:113-121 | the loop with `break` reports blocked iff some grid index from the start index to the end index holds an occupied slot |
| `SlotGrid.ScanFreesRange` | frontend/src/components/BookingForm/BookingForm.jsx:116-126 | a scan from the start to `t` that finds nothing occupied leaves no occupied slot in the committed range `[start, t + 30)` |
| `SlotGrid.SlotState` | frontend/src/components/BookingForm/BookingForm.jsx:133-152 | a slot shows occupied iff it is occupied, and with no start it shows only occupied or free |
| `SlotGrid.SlotStateShowsRange` | frontend/src/components/BookingForm/BookingForm.jsx:144-151 | for a range `[s, e)` on the grid, a free slot is marked iff it lies in the range: the start at `s`, the end at `e - 30`, and the slots strictly between as selected |
| `SlotGrid.SlotStateShowsStart` | frontend/src/components/BookingForm/BookingForm.jsx:137-142 | with a start and no end, only the start slot is highlighted |
| `BookingFormState.TypedStartEndText` | frontend/src/components/BookingForm/BookingForm.jsx:285-289 | the end text the start input builds is the `HH:MM` of start + 30; it passes the `<= "20:00"` test iff start + 30 <= 20:00; `"NaN:NaN"` fails it |
| `BookingFormState.BookingForm.constructor` | frontend/src/components/BookingForm/BookingForm.jsx:43-83 | the room falls back to the first room and the date to today; the fetch starts iff there is a room; the reset effect leaves nothing selected, even when an hour was given |
| `BookingFormState.BookingForm.KeepingPrefill` | frontend/src/components/BookingForm/BookingForm.jsx:43-75 | the corrected opening: the same room, date and fetch, with the given hour h kept as the range `[h:00, h+1:00)` |
| `BookingFormState.BookingForm.StartFetch` | frontend/src/components/BookingForm/BookingForm.jsx:64-66 | the loading flag is raised iff a room and a date are chosen; otherwise nothing changes |
| `BookingFormState.BookingForm.ResetSelection` | frontend/src/components/BookingForm/BookingForm.jsx:77-83 | start and end are cleared, the phase returns to picking a start and the message clears |
| `BookingFormState.BookingForm.SlotsLoaded` | frontend/src/components/BookingForm/BookingForm.jsx:67-70 | the day's bookings become the response, or empty on failure, and loading ends |
| `BookingFormState.BookingForm.SelectRoom` | frontend/src/components/BookingForm/BookingForm.jsx:64-83 | a changed room clears the selection, phase and message and starts a fetch; an unchanged room changes nothing; the selection invariant is kept |
| `BookingFormState.BookingForm.SelectDate` | frontend/src/components/BookingForm/BookingForm.jsx:64-83 | the same for a changed date |
| `BookingFormState.BookingForm.HandleSlotClick` | frontend/src/components/BookingForm/BookingForm.jsx:88-131 | an occupied click changes nothing; each phase and case sets start, end, phase and message as the handler does; a committed range has no occupied slot; the selection invariant is kept |
| `BookingFormState.BookingForm.TypeStart` | frontend/src/components/BookingForm/BookingForm.jsx:281-292 | the start becomes the typed value; the end moves to min(start + 30, 20:00) only when it was absent or not after the start, and then lies after a start before 20:00 |
| `BookingFormState.BookingForm.TypeEnd` | frontend/src/components/BookingForm/BookingForm.jsx:305-308 | the end becomes the typed value and the message clears; the start is untouched |
| `BookingFormState.BookingForm.Submit` | frontend/src/components/BookingForm/BookingForm.jsx:154-176 | no request and the "choose a time" message iff a start or end is missing; otherwise a request with both times as `HH:MM` text, a cancel code iff nobody is signed in, and the user's id |
| `BookingFormState.BookingForm.CreateFailed` | frontend/src/components/BookingForm/BookingForm.jsx:184-185 | a failed create shows its message |
| `BookingFormState.OpenFromCalendarCell` | frontend/src/components/BookingForm/BookingForm.jsx:45-50 | opening for hour 10 would prefill 10:00-11:00, yet the opened form has no start and no end |
| `BookingFormState.OffGridStartScansFromMorning` | frontend/src/components/BookingForm/BookingForm.jsx:113-123 | with a typed start of 12:15 and a booking at 09:00-10:00, a click on the free slot 13:00 is refused as crossing a booking, and the selection stays |
| `BookingFormState.OpenFromCalendarCellKeepingPrefill` | frontend/src/components/BookingForm/BookingForm.jsx:45-50 | with the corrected opening, hour 10 gives the range 10:00-11:00 |
| `Calendar.Hours` | frontend/src/components/Calendar/Calendar.jsx:16 | 13 hours, 8 to 20, increasing by one |
| `Calendar.BookingsForSlot` | frontend/src/components/Calendar/Calendar.jsx:44-55 | keeps exactly the bookings of the room and date whose hour span covers the hour |
| `Calendar.BookingsStartingAt` | frontend/src/components/Calendar/Calendar.jsx:57-64 | keeps exactly the bookings of the room and date that start in the hour |
| `Calendar.CoversHourIff` | frontend/src/components/Calendar/Calendar.jsx:49-53 | rounding a partial last hour up means: the booking covers hour h iff it starts in or before h and ends after h:00 (11:00 does not cover 11, 11:30 does) |
| `Calendar.StartingIsCovering` | frontend/src/components/Calendar/Calendar.jsx:57-63 | a booking drawn from a cell also makes that cell occupied, when it ends after it starts |
| `Calendar.MissingTimesNeverShown` | frontend/src/components/Calendar/Calendar.jsx:49-53 | a booking missing either time covers no hour; one missing its start is also never drawn, while one missing only its end is still drawn at its start hour |
| `Calendar.DayOfRoom` | frontend/src/components/BookingForm/BookingForm.jsx:67 | the bookings of one room on one day, exactly |
| `Calendar.CellOccupied` | frontend/src/components/Calendar/Calendar.jsx:198-199 | a cell is occupied iff some booking of `rooms[0]` or `rooms[1]` on that day covers its hour |
| `Calendar.CellOffersAdd` | frontend/src/components/Calendar/Calendar.jsx:233-241 | the add target is offered iff no booking covering the hour belongs to either room on that day |
| `Calendar.LastRowOffersAdd` | frontend/src/components/Calendar/Calendar.jsx:16 | when no booking ends after 20:00, the 20:00 row offers add on every day |
| `Calendar.FreeCellFreesHour` | frontend/src/components/Calendar/Calendar.jsx:198-199 | a cell that offers "add" leaves every grid slot of its hour free in the booking form, for both rooms |
| `HomePage.IsUpcoming` | frontend/src/pages/HomePage.jsx:53-57 | a booking is upcoming iff its date is later than today, or it is today and the `HH:MM` prefix of its stored end is after the current `HH:mm` text; with no end, only a later date counts |
| `HomePage.UpcomingTimeText` | frontend/src/pages/HomePage.jsx:55 | the first five characters of a stored end time are its `HH:MM`, and that text is after the current time iff the end is |
| `HomePage.SortByKey` | frontend/src/pages/HomePage.jsx:58-61 | the sorted list is a permutation, ordered by date and then start, with a missing start first |
| `HomePage.UpcomingBookings` | frontend/src/pages/HomePage.jsx:47-63 | at most 10 items, sorted, each an upcoming booking of the input, none invented or duplicated |
| `HomePage.UpcomingAreEarliest` | frontend/src/pages/HomePage.jsx:62 | all upcoming bookings are shown when there are at most 10, otherwise exactly 10, and every shown booking sorts no later than every one left out |
| `HomePage.GroupByDate` | frontend/src/pages/HomePage.jsx:65-72 | one group per distinct date in first-seen order, each holding exactly that date's items in list order |
| `HomePage.DatesAscending` | frontend/src/pages/HomePage.jsx:65-71 | for a list sorted by date, the group dates are strictly increasing |
| `HomePage.GroupsReassemble` | frontend/src/pages/HomePage.jsx:65-71 | for a list sorted by date, concatenating the groups in order gives back the list |
| `HomePage.UpcomingGroupsReassemble` | frontend/src/pages/HomePage.jsx:47-72 | the groups of the upcoming list concatenate to that list, in increasing date order |
| `HomePage.GetRoomIndex` | frontend/src/pages/HomePage.jsx:86-89 | -1 iff no room has the booking's room id, otherwise the first room that has it |
| `HomePage.OpenFormFromFreeCell` | frontend/src/pages/HomePage.jsx:31-33 | opening the corrected form from any free cell (rows 8 to 20) selects `[h:00, h+1:00)` for the first room; for rows before 20 that is a free range on the form's grid, while the 20:00 row selects 20:00-21:00, whose end is off the grid and breaks the selection invariant |
| `MyBookings.UpcomingOf` | frontend/src/pages/MyBookingsPage.jsx:48 | exactly the bookings dated today or later |
| `MyBookings.PastOf` | frontend/src/pages/MyBookingsPage.jsx:49 | exactly the bookings dated before today |
| `MyBookings.PartitionAtToday` | frontend/src/pages/MyBookingsPage.jsx:48-49 | each booking is in exactly one of the two lists, as often as in the input |
| `MyBookings.ListsKeepOrder` | frontend/src/pages/MyBookingsPage.jsx:48-49 | both lists keep the input's relative order |
| `MyBookings.SortedSplitsAtToday` | frontend/src/pages/MyBookingsPage.jsx:48-49 | for bookings sorted by date, past followed by upcoming is the input |
| `MyBookings.GetRoomInfo` | frontend/src/pages/MyBookingsPage.jsx:51-56 | the index is the first matching room or -1; the name is that room's name, or "Зал" when there is no match or the name is empty |
| `BookingsApi.ToStrapiTime` | frontend/src/api/bookings.js:28-32 | an absent time stays absent; the given text is always kept as a prefix; five-character text gains `:00.000` to twelve characters; any other text is unchanged |
| `BookingsApi.ToStrapiTimeIdempotent` | frontend/src/api/bookings.js:28-32 | normalising twice equals normalising once, 5-character text becomes 12 characters, and an absent time stays absent |
| `BookingsApi.FormTimeStoredAsSlotText` | frontend/src/api/bookings.js:39-40 | a form time is stored as the slot text the grid compares with, so a stored booking occupies exactly the slots of its range |
| `BookingsApi.AppendFilter` | frontend/src/api/bookings.js:8-22 | a filter is appended iff its value is present and non-empty |
| `BookingsApi.BuildQuery` | frontend/src/api/bookings.js:3-22 | `populate=room`, then the sort, then the present filters |
| `BookingsApi.FilterEntriesExact` | frontend/src/api/bookings.js:8-22 | a filter is emitted iff it is present, under its own key and value, in the fixed key order |
| `BookingsApi.ShapePayload` | frontend/src/api/bookings.js:35-42 | the payload keeps the other fields, normalises both times and connects exactly the room |
| `BookingsApi.ShapePayloadRoundTrip` | frontend/src/api/bookings.js:35-42 | reading the request back from the payload gives it with normalised times, and shaping that again changes nothing |
| `BookingsApi.CancelTarget` | frontend/src/api/bookings.js:56-58 | not found iff the lookup is empty, otherwise the first match's document id |
| `BookingsApi.CancelByCodeTargetsFirstMatch` | frontend/src/api/bookings.js:52-59 | not found iff no stored booking has the code, otherwise the first stored booking with it |
| `UseBookings.BookingsQuery.constructor` | frontend/src/hooks/useBookings.js:4-8 | empty bookings, counter 0, no error, loading iff not skipped |
| `UseBookings.BookingsQuery.Refetch` | frontend/src/hooks/useBookings.js:12-16 | skipped: nothing changes; otherwise the counter grows by one, loading is set and the query for the filters is issued |
| `UseBookings.BookingsQuery.Resolve` | frontend/src/hooks/useBookings.js:17-21 | data is taken only for the current request id |
| `UseBookings.BookingsQuery.Reject` | frontend/src/hooks/useBookings.js:22-26 | the error is set only for the current request id |
| `UseBookings.BookingsQuery.Settle` | frontend/src/hooks/useBookings.js:27-31 | loading clears only when the current request completes |
| `UseBookings.BookingsQuery.RunEffect` | frontend/src/hooks/useBookings.js:34-41 | skipped: empty bookings and not loading; otherwise a refetch |
| `UseBookings.BookingsQuery.Rerender` | frontend/src/hooks/useBookings.js:10-41 | the effect reruns only when the filters or `skip` changed |
| `UseBookings.AnswersOutOfOrder` | frontend/src/hooks/useBookings.js:14-31 | when an older answer arrives after a newer one, the newer data stays and loading is off |

## Left out

- BookingsApi.CancelByCodeTargetsFirstMatch: the lookup is exact only for codes without URL-reserved characters. `cancelBookingByCode` pastes the code into the query unencoded. A code containing `#`, `&`, `%` or `+` therefore asks the server for a different code: `"ABC123#X"` reaches it as `"ABC123"`. Generated codes are `[0-9A-Z]` and are not affected.
- HTTP and JSON plumbing (`client.js`, `auth.js`, `rooms.js`) and the network calls. A response is a parameter of the method that receives it.
- React rendering, markup, styling and modals.
- The `submitting` flag: while a create is in flight it disables the submit button, which is what stops a second create. The model has no in-flight state, so it does not capture that double submits are prevented.
- Sign-in and session storage (`AuthContext.jsx`): the signed-in user is a parameter.
- The random code of `generateCancelCode`. The code is the `freshCode` parameter of `Submit`, which uses it iff nobody is signed in.
- The clock and date-fns formatting. Today's date and the current minute are parameters.
- What `handleSubmit` does after a successful create: showing the code or closing the form. It only changes what is drawn.
- `getBookingSpan` and the pixel offsets of the calendar blocks: they are floating-point layout arithmetic.
- The week navigation of the calendar, and its mobile list, which draws an add target in every row. Only the desktop cell rule is modelled.
- `deleteBooking` and the delete flow of the personal page: one network call with no decision in the client.
- Stored time text other than zero-padded `HH:MM` or `HH:MM:00.000`, which the client never sends itself. The source compares such text as strings, with these effects:
  - An empty start: `"08:00:00.000" >= ""` holds, so the booking occupies every slot before its end.
  - An unpadded end such as `"9:00:00.000"` sorts after `"19:30:00.000"`, so the booking occupies every slot from its start on.
  - Unpadded text such as `"9:30"` still parses to hour 9 in the calendar.
  - Non-zero seconds, such as `"10:00:30.000"`: the slot 10:00 is not occupied by a booking starting then, because `"10:00:00.000" >= "10:00:30.000"` is false.
- HomePage.SortByKey: `Array.prototype.sort` with this comparator leaves the order of bookings tied on date and start open. The model fixes one order, and every lemma relies only on sortedness and permutation, which hold for any order the engine picks.
- Integer width does not arise here: counters and minutes are unbounded naturals, and no value in the source comes near 2^53.
- The server (`server/`) and any double-booking check in storage.

## Findings

| source | as written | input that shows it | evidently intended | confidence | as-written member | corrected member |
|---|---|---|---|---|---|---|
| frontend/src/components/BookingForm/BookingForm.jsx:45-50, :77-83 | The reset effect on `[roomId, date]` also runs when the form mounts. It sets start and end to null right after they were prefilled from `initialData.hour`. | Click the add target of the 10:00 cell in the week calendar. The form opens with `initialData = { date, hour: 10 }` and shows no selection. | The hour clicked stays selected as 10:00-11:00. The selection resets only when the room or date changes afterwards. | not executed | `BookingFormState.OpenFromCalendarCell` | `BookingFormState.BookingForm.KeepingPrefill` |
