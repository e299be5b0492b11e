/** The bookings hook (hooks/useBookings.js): the list, loading flag and error
    of one bookings query, guarded so that only the answer to the latest
    request is taken. */
module UseBookings {
  import opened Common
  import opened Records
  import opened BookingsApi

  /** One mounted use of the hook. `requestId` is the counter kept across
      renders; a request remembers the value it was given. */
  class BookingsQuery {
    var filters: BookingFilters
    var skip: bool
    var requestId: nat
    var bookings: seq<Booking>
    var loading: bool
    var error: Option<string>

    /** The initial state: no bookings, loading unless skipped. The mount
        effect is `RunEffect`. */
    constructor (filters: BookingFilters, skip: bool)
      ensures this.filters == filters && this.skip == skip
      ensures requestId == 0 && bookings == [] && loading == !skip && error.None?
    {
      this.filters := filters;
      this.skip := skip;
      requestId := 0;
      bookings := [];
      loading := !skip;
      error := None;
    }

    /** `refetch`: nothing when skipped; otherwise a new request, numbered one
        past every earlier one, for the query of the current filters. */
    method Refetch() returns (request: Option<(nat, seq<Param>)>)
      modifies this`requestId, this`loading
      ensures skip ==> request.None? && requestId == old(requestId) && loading == old(loading)
      ensures !skip ==> requestId == old(requestId) + 1 && loading &&
                        request == Some((requestId, [PopulateParam, SortParam] + FilterEntries(filters, 5)))
    {
      if skip {
        return None;
      }
      requestId := requestId + 1;
      loading := true;
      var query := BuildQuery(filters);
      request := Some((requestId, query));
    }

    /** The answer to request `id`: taken only when no later request was made. */
    method Resolve(id: nat, data: seq<Booking>)
      modifies this`bookings
      ensures bookings == if id == requestId then data else old(bookings)
    {
      if id == requestId {
        bookings := data;
      }
    }

    /** The failure of request `id`: recorded only when no later request was
        made. Nothing ever clears it. */
    method Reject(id: nat, err: string)
      modifies this`error
      ensures error == if id == requestId then Some(err) else old(error)
    {
      if id == requestId {
        error := Some(err);
      }
    }

    /** The end of request `id`: loading stops only for the latest request. */
    method Settle(id: nat)
      modifies this`loading
      ensures loading == if id == requestId then false else old(loading)
    {
      if id == requestId {
        loading := false;
      }
    }

    /** The effect: when skipped, the list is emptied and loading stops;
        otherwise a refetch. */
    method RunEffect() returns (request: Option<(nat, seq<Param>)>)
      modifies this`requestId, this`loading, this`bookings
      ensures skip ==> request.None? && bookings == [] && !loading && requestId == old(requestId)
      ensures !skip ==> bookings == old(bookings) && requestId == old(requestId) + 1 && loading &&
                        request == Some((requestId, [PopulateParam, SortParam] + FilterEntries(filters, 5)))
    {
      if skip {
        bookings := [];
        loading := false;
        return None;
      }
      request := Refetch();
    }

    /** A render with filters `f` and skip flag `s`. The effect runs again only
        when the filters (compared as their JSON text) or the flag changed. */
    method Rerender(f: BookingFilters, s: bool) returns (request: Option<(nat, seq<Param>)>)
      modifies this`filters, this`skip, this`requestId, this`loading, this`bookings
      ensures filters == f && skip == s
      ensures f == old(filters) && s == old(skip) ==>
                request.None? && requestId == old(requestId) && loading == old(loading) && bookings == old(bookings)
      ensures (f != old(filters) || s != old(skip)) && s ==>
                request.None? && bookings == [] && !loading && requestId == old(requestId)
      ensures (f != old(filters) || s != old(skip)) && !s ==>
                bookings == old(bookings) && requestId == old(requestId) + 1 && loading &&
                request == Some((requestId, [PopulateParam, SortParam] + FilterEntries(f, 5)))
    {
      if f == filters && s == skip {
        return None;
      }
      filters, skip := f, s;
      request := RunEffect();
    }
  }

  /** Two requests whose answers arrive in the opposite order: the earlier
      request's late answer is dropped, so the list is the later answer and
      loading has stopped. */
  method AnswersOutOfOrder(q: BookingsQuery, older: seq<Booking>, newer: seq<Booking>)
    requires !q.skip
    modifies q
    ensures q.bookings == newer && !q.loading
  {
    var first := q.Refetch();
    var second := q.Refetch();
    q.Resolve(second.value.0, newer);
    q.Settle(second.value.0);
    q.Resolve(first.value.0, older);
    q.Settle(first.value.0);
  }
}
