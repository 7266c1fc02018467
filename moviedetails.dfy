/**
 * The booking side of the movie page: toggling seats in the selection, the
 * total price, the booking button (which saves the selection for later
 * when the visitor is not logged in) and the restoring of a saved
 * selection after login.
 */
module MovieDetails {
  import opened Wrappers
  import opened Seqs
  import opened SeatGrid

  // ------------------------------------------------------- handleSeatToggle

  /**
   * `handleSeatToggle`: a seat not in the selection is appended; a seat in
   * it is removed, every copy of it, the rest keeping their order.
   */
  function Toggle(prev: seq<SeatKey>, seat: SeatKey): (r: seq<SeatKey>)
    ensures seat !in prev ==> r == prev + [seat]
    ensures seat in prev ==> seat !in r && Sublist(r, prev)
    ensures seat in prev ==> forall k :: 0 <= k < |prev| && prev[k] != seat ==> prev[k] in r
    ensures seat in prev ==> multiset(r) == multiset(prev)[seat := 0]
  {
    if seat in prev then
      FilterSublist((s: SeatKey) => s != seat, prev);
      var r := Filter((s: SeatKey) => s != seat, prev);
      forall x ensures multiset(r)[x] == multiset(prev)[seat := 0][x] {
        FilterCounts((s: SeatKey) => s != seat, prev, x);
      }
      r
    else prev + [seat]
  }

  /** Toggling a seat twice, from a selection without it, gives the selection back. */
  lemma ToggleTwice(prev: seq<SeatKey>, seat: SeatKey)
    requires seat !in prev
    ensures Toggle(Toggle(prev, seat), seat) == prev
  {
    var added := prev + [seat];
    FilterKeepsAll((s: SeatKey) => s != seat, prev);
    assert Filter((s: SeatKey) => s != seat, [seat]) == [];
    FilterConcat((s: SeatKey) => s != seat, prev, [seat]);
  }

  /** A selection without repeated seats. */
  predicate NoRepeats(s: seq<SeatKey>) {
    forall i, j :: 0 <= i < j < |s| ==> s[i] != s[j]
  }

  /** Toggling never introduces a repeated seat. */
  lemma {:induction false} ToggleNoRepeats(prev: seq<SeatKey>, seat: SeatKey)
    requires NoRepeats(prev)
    ensures NoRepeats(Toggle(prev, seat))
  {
    if seat in prev {
      var r := Toggle(prev, seat);
      var idx :| PicksFrom(r, prev, idx);
      forall i, j | 0 <= i < j < |r| ensures r[i] != r[j] {
        assert r[i] == prev[idx[i]] && r[j] == prev[idx[j]];
      }
    }
  }

  // ------------------------------------------------------------------ price

  /** `Number(price) * selectedSeats.length`, both the displayed and the submitted total. */
  function TotalPrice(price: int, seats: seq<SeatKey>): int {
    price * |seats|
  }

  /** Dropping a seat that occurs once shortens a repeat-free selection by one. */
  lemma {:induction false} DropOnce(prev: seq<SeatKey>, seat: SeatKey)
    requires NoRepeats(prev) && seat in prev
    ensures |Filter((s: SeatKey) => s != seat, prev)| == |prev| - 1
  {
    var rest := prev[1..];
    if prev[0] == seat {
      assert forall k :: 0 <= k < |rest| ==> rest[k] == prev[k + 1];
      FilterKeepsAll((s: SeatKey) => s != seat, rest);
    } else {
      assert seat in rest;
      DropOnce(rest, seat);
    }
  }

  /** With a repeat-free selection, each toggle moves the total by exactly one seat's price. */
  lemma ToggleMovesTotal(price: int, prev: seq<SeatKey>, seat: SeatKey)
    requires NoRepeats(prev)
    ensures seat !in prev ==> TotalPrice(price, Toggle(prev, seat)) == TotalPrice(price, prev) + price
    ensures seat in prev ==> TotalPrice(price, Toggle(prev, seat)) == TotalPrice(price, prev) - price
  {
    var r := Toggle(prev, seat);
    if seat in prev {
      DropOnce(prev, seat);
      assert |prev| == |r| + 1;
      assert price * (|r| + 1) == price * |r| + price;
    } else {
      assert |r| == |prev| + 1;
      assert price * (|prev| + 1) == price * |prev| + price;
    }
  }

  // ------------------------------------------------------------ page state

  /** A schedule as the page holds it; `price` is a whole amount. */
  datatype Schedule = Schedule(id: nat, price: int)

  /** The object stored under `pendingBooking`. */
  datatype PendingBooking = PendingBooking(movieId: string, schedule: Option<Schedule>, seats: seq<SeatKey>)

  /** The body of POST `/bookings`. */
  datatype BookingRequest = BookingRequest(scheduleId: nat, seats: seq<SeatKey>, totalPrice: int)

  /**
   * The movie page's booking state, with the two `localStorage` entries it
   * uses and the requests it has sent to POST `/bookings`.
   */
  class BookingPage {
    /** The `:id` route parameter, a string. */
    const movieId: string
    var selectedSchedule: Option<Schedule>
    var bookedSeats: seq<BookedEntry>
    var selectedSeats: seq<SeatKey>
    /** `localStorage.getItem('token')`. */
    var token: Option<string>
    /** `localStorage.getItem('pendingBooking')`, parsed. */
    var pendingBooking: Option<PendingBooking>
    var sent: seq<BookingRequest>

    constructor (movieId: string, token: Option<string>, pendingBooking: Option<PendingBooking>)
      ensures this.movieId == movieId && this.token == token && this.pendingBooking == pendingBooking
      ensures selectedSchedule == None && bookedSeats == [] && selectedSeats == [] && sent == []
    {
      this.movieId := movieId;
      this.token, this.pendingBooking := token, pendingBooking;
      selectedSchedule, bookedSeats, selectedSeats, sent := None, [], [], [];
    }

    /** A click on an available or selected seat. */
    method ToggleSeat(seat: SeatKey)
      modifies this`selectedSeats
      ensures selectedSeats == Toggle(old(selectedSeats), seat)
    {
      selectedSeats := Toggle(selectedSeats, seat);
    }

    /** The seats of the chosen schedule arrive: they replace the booked list and the selection is cleared. */
    method SeatsArrived(booked: seq<BookedEntry>)
      modifies this`bookedSeats, this`selectedSeats
      ensures bookedSeats == booked && selectedSeats == []
    {
      bookedSeats := booked;
      selectedSeats := [];
    }

    /**
     * `handleBooking`. Without a token the selection is saved under
     * `pendingBooking` and nothing is sent; with a token but no schedule or
     * no seat nothing happens; otherwise one request is sent for the
     * selection at `price × seats`.
     */
    method HandleBooking()
      modifies this`pendingBooking, this`sent
      ensures token == None || token == Some("") ==>
                pendingBooking == Some(PendingBooking(movieId, selectedSchedule, selectedSeats)) && sent == old(sent)
      ensures token != None && token != Some("") && (selectedSchedule == None || selectedSeats == []) ==>
                pendingBooking == old(pendingBooking) && sent == old(sent)
      ensures token != None && token != Some("") && selectedSchedule != None && selectedSeats != [] ==>
                && pendingBooking == old(pendingBooking)
                && sent == old(sent) + [BookingRequest(selectedSchedule.value.id, selectedSeats,
                                                       TotalPrice(selectedSchedule.value.price, selectedSeats))]
    {
      if token == None || token == Some("") {
        pendingBooking := Some(PendingBooking(movieId, selectedSchedule, selectedSeats));
        return;
      }
      if selectedSchedule == None || selectedSeats == [] {
        return;
      }
      var schedule := selectedSchedule.value;
      sent := sent + [BookingRequest(schedule.id, selectedSeats, TotalPrice(schedule.price, selectedSeats))];
    }

    /**
     * `restorePendingBooking`: a saved selection for this movie brings back
     * its schedule and seats; one for another movie is ignored; either way
     * the saved entry is removed.
     */
    method RestorePendingBooking()
      modifies this`selectedSchedule, this`selectedSeats, this`pendingBooking
      ensures pendingBooking == None
      ensures old(pendingBooking).Some? && old(pendingBooking).value.movieId == movieId ==>
                selectedSchedule == old(pendingBooking).value.schedule && selectedSeats == old(pendingBooking).value.seats
      ensures old(pendingBooking).None? || old(pendingBooking).value.movieId != movieId ==>
                selectedSchedule == old(selectedSchedule) && selectedSeats == old(selectedSeats)
    {
      if pendingBooking.Some? {
        var saved := pendingBooking.value;
        if saved.movieId == movieId {
          selectedSchedule := saved.schedule;
          selectedSeats := saved.seats;
        }
        pendingBooking := None;
      }
    }
  }
}
