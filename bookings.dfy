/**
 * The booking ledger behind the `/bookings` routes: the `bookings` table,
 * the `booking_seats` table, the booked-seat query of a schedule, booking
 * creation in one transaction, cancellation and the per-user listing.
 *
 * The invariant that matters: no seat is held by two different
 * non-cancelled bookings of one schedule (`NoDoubleBooking`). `Create` and
 * `Cancel` preserve it; the payment notification (module Payment) does not
 * in general, because it may re-activate a cancelled booking.
 */
module Bookings {
  import opened Wrappers
  import opened Text
  import opened Tokens
  import opened Seqs

  datatype Status = Pending | Confirmed | Cancelled

  /** A row of the `bookings` table. Money is a whole amount of rupiah. */
  datatype Booking = Booking(id: nat, userId: nat, scheduleId: nat, totalPrice: int, status: Status, createdAt: int)

  /** A seat as the client sends it (`{row, number}`) and as the server lists it. */
  datatype Seat = Seat(row: string, number: int)

  /** A row of the `booking_seats` table. */
  datatype SeatRow = SeatRow(bookingId: nat, seat: Seat)

  // ------------------------------------------------------------ verifyToken

  const MockToken: string := "mock-token-12345"

  /** The identity the mock-token branch installs: user 1, with no role. */
  const MockUser: Claims := Claims(1, None)

  datatype AuthResult = Authenticated(user: Claims) | AccessDenied | InvalidToken {
    /** The HTTP status the middleware answers with when it stops the request. */
    function Code(): int requires !Authenticated? {
      if AccessDenied? then 401 else 400
    }
  }

  /**
   * The `verifyToken` middleware. `header` is the `Authorization` header
   * (`None` when absent). A header that contains the mock token anywhere is
   * accepted as user 1 without looking at any signature; any other is
   * accepted exactly when its bearer token verifies.
   */
  function VerifyToken(header: Option<string>, decode: string -> Option<Claims>): (r: AuthResult)
    ensures r.AccessDenied? <==> Falsy(header)
    ensures !Falsy(header) && Contains(header.value, MockToken) ==> r == Authenticated(MockUser)
    ensures !Falsy(header) && !Contains(header.value, MockToken) ==>
              (r.InvalidToken? <==> BearerClaims(header.value, decode).None?)
    ensures !Falsy(header) && !Contains(header.value, MockToken) && r.Authenticated? ==>
              BearerClaims(header.value, decode) == Some(r.user)
  {
    if Falsy(header) then AccessDenied
    else if Contains(header.value, MockToken) then Authenticated(MockUser)
    else match BearerClaims(header.value, decode)
      case None => InvalidToken
      case Some(claims) => Authenticated(claims)
  }

  /** Any header that contains the mock token is accepted as user 1, whatever the decoder says. */
  lemma MockTokenBypass(prefix: string, suffix: string, decode: string -> Option<Claims>)
    ensures VerifyToken(Some(prefix + MockToken + suffix), decode) == Authenticated(MockUser)
  {
    var h := prefix + MockToken + suffix;
    assert h[|prefix|..|prefix| + |MockToken|] == MockToken;
    assert OccursAt(h, MockToken, |prefix|);
  }

  // ------------------------------------------------------- table functions

  /** The booking with that id, `None` when there is none. */
  function Lookup(bs: seq<Booking>, id: nat): (r: Option<Booking>)
    ensures r.Some? ==> r.value in bs && r.value.id == id
    ensures r.None? <==> forall k :: 0 <= k < |bs| ==> bs[k].id != id
  {
    if bs == [] then None
    else if bs[|bs| - 1].id == id then Some(bs[|bs| - 1])
    else Lookup(bs[..|bs| - 1], id)
  }

  /** The schedule in which a seat row holds its seat: that of its booking, unless the booking is cancelled. */
  function HeldIn(bs: seq<Booking>, r: SeatRow): (h: Option<nat>)
    ensures h.Some? ==> exists k :: 0 <= k < |bs| && bs[k].id == r.bookingId && bs[k].status != Cancelled && bs[k].scheduleId == h.value
    ensures (forall k :: 0 <= k < |bs| ==> bs[k].id != r.bookingId) ==> h.None?
  {
    match Lookup(bs, r.bookingId)
    case None => None
    case Some(b) => if b.status != Cancelled then Some(b.scheduleId) else None
  }

  /**
   * The booked-seat query: the seats of the seat rows whose booking is for
   * `scheduleId` and not cancelled, in table order. Pending and confirmed
   * bookings both hold their seats.
   */
  function BookedSeats(bs: seq<Booking>, rows: seq<SeatRow>, scheduleId: nat): (r: seq<Seat>)
    ensures forall x :: x in r <==> exists i :: 0 <= i < |rows| && rows[i].seat == x && HeldIn(bs, rows[i]) == Some(scheduleId)
  {
    if rows == [] then []
    else
      var last := rows[|rows| - 1];
      var front := BookedSeats(bs, rows[..|rows| - 1], scheduleId);
      var r := front + (if HeldIn(bs, last) == Some(scheduleId) then [last.seat] else []);
      assert forall i :: 0 <= i < |rows| - 1 ==> rows[..|rows| - 1][i] == rows[i];
      r
  }

  /** `seats.some(req => booked.some(b => same row and number))`. */
  function AnyTaken(requested: seq<Seat>, booked: seq<Seat>): (r: bool)
    ensures r <==> exists k :: 0 <= k < |requested| && requested[k] in booked
  {
    if requested == [] then false
    else
      var r := requested[0] in booked || AnyTaken(requested[1..], booked);
      assert forall k :: 1 <= k < |requested| ==> requested[k] == requested[1..][k - 1];
      r
  }

  /** `seats.map(s => [bookingId, s.row, s.number])`: the seat rows of a new booking. */
  function RowsFor(bookingId: nat, seats: seq<Seat>): (r: seq<SeatRow>)
    ensures |r| == |seats|
    ensures forall k :: 0 <= k < |r| ==> r[k] == SeatRow(bookingId, seats[k])
  {
    seq(|seats|, k requires 0 <= k < |seats| => SeatRow(bookingId, seats[k]))
  }

  /** `SELECT seat_row, seat_number FROM booking_seats WHERE booking_id = ?`, in table order. */
  function SeatsOf(rows: seq<SeatRow>, bookingId: nat): (r: seq<Seat>)
    ensures forall x :: x in r <==> exists i :: 0 <= i < |rows| && rows[i] == SeatRow(bookingId, x)
  {
    if rows == [] then []
    else
      var last := rows[|rows| - 1];
      assert forall i :: 0 <= i < |rows| - 1 ==> rows[..|rows| - 1][i] == rows[i];
      SeatsOf(rows[..|rows| - 1], bookingId) + (if last.bookingId == bookingId then [last.seat] else [])
  }

  /** The seat rows not belonging to `bookingId`, in table order. */
  function RowsWithout(rows: seq<SeatRow>, bookingId: nat): (r: seq<SeatRow>)
    ensures forall x :: x in r <==> x in rows && x.bookingId != bookingId
  {
    if rows == [] then []
    else
      var last := rows[|rows| - 1];
      assert rows == rows[..|rows| - 1] + [last];
      RowsWithout(rows[..|rows| - 1], bookingId) + (if last.bookingId != bookingId then [last] else [])
  }

  /** `UPDATE bookings SET status = ? WHERE id = ?`. */
  function WithStatus(bs: seq<Booking>, id: nat, st: Status): (r: seq<Booking>)
    ensures |r| == |bs|
    ensures forall k :: 0 <= k < |bs| ==> r[k] == if bs[k].id == id then bs[k].(status := st) else bs[k]
  {
    seq(|bs|, k requires 0 <= k < |bs| => if bs[k].id == id then bs[k].(status := st) else bs[k])
  }

  /** The bookings of one user, in table order. */
  function OwnedBy(bs: seq<Booking>, userId: nat): (r: seq<Booking>)
    ensures forall b :: b in r <==> b in bs && b.userId == userId
  {
    if bs == [] then []
    else
      var last := bs[|bs| - 1];
      assert bs == bs[..|bs| - 1] + [last];
      OwnedBy(bs[..|bs| - 1], userId) + (if last.userId == userId then [last] else [])
  }

  /** `WHERE b.user_id = ? ORDER BY b.created_at DESC`: the caller's bookings, newest first. */
  function UserListing(bs: seq<Booking>, userId: nat): seq<Booking> {
    Reverse(OwnedBy(bs, userId))
  }

  /** A booking as a listing returns it, with its seats attached. */
  datatype BookingView = BookingView(booking: Booking, seats: seq<Seat>)

  // ------------------------------------------------------------- invariants

  predicate CreatedInOrder(bs: seq<Booking>) {
    forall i, j :: 0 <= i < j < |bs| ==> bs[i].createdAt <= bs[j].createdAt
  }

  /**
   * The shape the tables keep: ids are handed out in increasing order below
   * the auto-increment counter, every seat row belongs to a booking, and
   * creation times follow insertion order.
   */
  ghost predicate WellFormed(bs: seq<Booking>, rows: seq<SeatRow>, nextId: nat) {
    && (forall i, j :: 0 <= i < j < |bs| ==> bs[i].id < bs[j].id)
    && (forall i :: 0 <= i < |bs| ==> bs[i].id < nextId)
    && (forall i :: 0 <= i < |rows| ==> Lookup(bs, rows[i].bookingId).Some?)
    && CreatedInOrder(bs)
  }

  /** No seat belongs to two different non-cancelled bookings of one schedule. */
  ghost predicate NoDoubleBooking(bs: seq<Booking>, rows: seq<SeatRow>) {
    forall i, j ::
      (0 <= i < |rows| && 0 <= j < |rows| && rows[i].bookingId != rows[j].bookingId
       && rows[i].seat == rows[j].seat && HeldIn(bs, rows[i]).Some?)
      ==> HeldIn(bs, rows[i]) != HeldIn(bs, rows[j])
  }

  // ------------------------------------------------------ lemmas: creation

  lemma LookupAppend(bs: seq<Booking>, b: Booking, id: nat)
    ensures Lookup(bs + [b], id) == if b.id == id then Some(b) else Lookup(bs, id)
  {
    assert (bs + [b])[..|bs|] == bs;
  }

  /** A booking appended with a fresh id changes how no existing seat row is held. */
  lemma HeldInAppend(bs: seq<Booking>, b: Booking, r: SeatRow)
    requires r.bookingId != b.id
    ensures HeldIn(bs + [b], r) == HeldIn(bs, r)
  {
    LookupAppend(bs, b, r.bookingId);
  }

  lemma {:induction false} BookedSeatsConcat(bs: seq<Booking>, rows: seq<SeatRow>, more: seq<SeatRow>, s: nat)
    ensures BookedSeats(bs, rows + more, s) == BookedSeats(bs, rows, s) + BookedSeats(bs, more, s)
  {
    if more == [] {
      assert rows + more == rows;
    } else {
      var m := more[..|more| - 1];
      assert (rows + more)[..|rows + more| - 1] == rows + m;
      assert (rows + more)[|rows + more| - 1] == more[|more| - 1];
      BookedSeatsConcat(bs, rows, m, s);
    }
  }

  /** Booked seats depend on the bookings only through how each seat row is held. */
  lemma {:induction false} BookedSeatsSameHolding(bs1: seq<Booking>, bs2: seq<Booking>, rows: seq<SeatRow>, s: nat)
    requires forall i :: 0 <= i < |rows| ==> HeldIn(bs1, rows[i]) == HeldIn(bs2, rows[i])
    ensures BookedSeats(bs1, rows, s) == BookedSeats(bs2, rows, s)
  {
    if rows != [] {
      BookedSeatsSameHolding(bs1, bs2, rows[..|rows| - 1], s);
    }
  }

  /** The seat rows of a live booking are booked in its schedule and nowhere else. */
  lemma {:induction false} BookedSeatsOfNewRows(bs: seq<Booking>, b: Booking, seats: seq<Seat>, s: nat)
    requires b.status != Cancelled
    ensures BookedSeats(bs + [b], RowsFor(b.id, seats), s) == if s == b.scheduleId then seats else []
  {
    LookupAppend(bs, b, b.id);
    if seats != [] {
      var front := seats[..|seats| - 1];
      assert RowsFor(b.id, seats)[..|seats| - 1] == RowsFor(b.id, front);
      BookedSeatsOfNewRows(bs, b, front, s);
      assert seats == front + [seats[|seats| - 1]];
    }
  }

  /**
   * A successful creation adds exactly the requested seats to the booked
   * seats of its schedule, in request order, and changes no other schedule's.
   */
  lemma CreateBooksRequestedSeats(bs: seq<Booking>, rows: seq<SeatRow>, b: Booking, seats: seq<Seat>, s: nat)
    requires WellFormed(bs, rows, b.id)
    requires b.status != Cancelled
    ensures BookedSeats(bs + [b], rows + RowsFor(b.id, seats), s)
         == BookedSeats(bs, rows, s) + (if s == b.scheduleId then seats else [])
  {
    BookedSeatsConcat(bs + [b], rows, RowsFor(b.id, seats), s);
    forall i | 0 <= i < |rows| ensures HeldIn(bs + [b], rows[i]) == HeldIn(bs, rows[i]) {
      HeldInAppend(bs, b, rows[i]);
    }
    BookedSeatsSameHolding(bs + [b], bs, rows, s);
    BookedSeatsOfNewRows(bs, b, seats, s);
  }

  /**
   * Creation keeps the invariant: when none of the requested seats is booked
   * in the schedule, the new booking clashes with no existing one. Two equal
   * seats inside one request are not a clash: they share a booking.
   */
  lemma CreatePreservesNoDoubleBooking(bs: seq<Booking>, rows: seq<SeatRow>, b: Booking, seats: seq<Seat>)
    requires WellFormed(bs, rows, b.id)
    requires NoDoubleBooking(bs, rows)
    requires !AnyTaken(seats, BookedSeats(bs, rows, b.scheduleId))
    ensures NoDoubleBooking(bs + [b], rows + RowsFor(b.id, seats))
  {
    var bs', rows' := bs + [b], rows + RowsFor(b.id, seats);
    LookupAppend(bs, b, b.id);
    forall i | 0 <= i < |rows| ensures rows'[i] == rows[i] && rows[i].bookingId != b.id
      && HeldIn(bs', rows[i]) == HeldIn(bs, rows[i]) {
      var k :| 0 <= k < |bs| && bs[k] == Lookup(bs, rows[i].bookingId).value;
      HeldInAppend(bs, b, rows[i]);
    }
    forall i, j | 0 <= i < |rows'| && 0 <= j < |rows'| && rows'[i].bookingId != rows'[j].bookingId
      && rows'[i].seat == rows'[j].seat && HeldIn(bs', rows'[i]).Some?
      ensures HeldIn(bs', rows'[i]) != HeldIn(bs', rows'[j])
    {
    }
  }

  /** The new booking's seat listing is exactly the requested seats, in request order. */
  lemma CreateSeatsOfNewBooking(rows: seq<SeatRow>, id: nat, seats: seq<Seat>)
    requires forall i :: 0 <= i < |rows| ==> rows[i].bookingId != id
    ensures SeatsOf(rows + RowsFor(id, seats), id) == seats
  {
    SeatsOfConcat(rows, RowsFor(id, seats), id);
    SeatsOfNone(rows, id);
    SeatsOfRowsFor(id, seats);
  }

  lemma {:induction false} SeatsOfConcat(rows: seq<SeatRow>, more: seq<SeatRow>, id: nat)
    ensures SeatsOf(rows + more, id) == SeatsOf(rows, id) + SeatsOf(more, id)
  {
    if more == [] {
      assert rows + more == rows;
    } else {
      var m := more[..|more| - 1];
      assert (rows + more)[..|rows + more| - 1] == rows + m;
      SeatsOfConcat(rows, m, id);
    }
  }

  lemma SeatsOfNone(rows: seq<SeatRow>, id: nat)
    requires forall i :: 0 <= i < |rows| ==> rows[i].bookingId != id
    ensures SeatsOf(rows, id) == []
  {
  }

  lemma {:induction false} SeatsOfRowsFor(id: nat, seats: seq<Seat>)
    ensures SeatsOf(RowsFor(id, seats), id) == seats
  {
    if seats != [] {
      var front := seats[..|seats| - 1];
      assert RowsFor(id, seats)[..|seats| - 1] == RowsFor(id, front);
      SeatsOfRowsFor(id, front);
      assert seats == front + [seats[|seats| - 1]];
    }
  }

  // ------------------------------------------------- lemmas: status updates

  lemma {:induction false} LookupWithStatus(bs: seq<Booking>, id: nat, st: Status, x: nat)
    ensures Lookup(WithStatus(bs, id, st), x)
         == if x == id && Lookup(bs, x).Some? then Some(Lookup(bs, x).value.(status := st)) else Lookup(bs, x)
  {
    if bs != [] {
      var n := |bs|;
      assert WithStatus(bs, id, st)[..n - 1] == WithStatus(bs[..n - 1], id, st);
      LookupWithStatus(bs[..n - 1], id, st, x);
    }
  }

  /** Holding after a status update: unchanged for other bookings; the updated booking holds unless cancelled. */
  lemma HeldInWithStatus(bs: seq<Booking>, id: nat, st: Status, r: SeatRow)
    ensures HeldIn(WithStatus(bs, id, st), r)
         == if r.bookingId != id || Lookup(bs, id).None? then HeldIn(bs, r)
            else if st == Cancelled then None
            else Some(Lookup(bs, id).value.scheduleId)
  {
    LookupWithStatus(bs, id, st, r.bookingId);
  }

  /**
   * A status update keeps the invariant as long as it does not bring a
   * cancelled booking back: cancelling, or moving between pending and
   * confirmed, only ever removes seats from the booked sets.
   */
  lemma StatusUpdatePreservesNoDoubleBooking(bs: seq<Booking>, rows: seq<SeatRow>, id: nat, st: Status)
    requires NoDoubleBooking(bs, rows)
    requires st == Cancelled || Lookup(bs, id).None? || Lookup(bs, id).value.status != Cancelled
    ensures NoDoubleBooking(WithStatus(bs, id, st), rows)
  {
    var bs' := WithStatus(bs, id, st);
    forall i | 0 <= i < |rows| ensures HeldIn(bs', rows[i]).Some? ==> HeldIn(bs', rows[i]) == HeldIn(bs, rows[i]) {
      HeldInWithStatus(bs, id, st, rows[i]);
    }
  }

  /** Cancelling a booking releases exactly its seats: the booked set is that of the other bookings' rows. */
  lemma {:induction false} CancelReleasesSeats(bs: seq<Booking>, rows: seq<SeatRow>, id: nat, s: nat)
    ensures BookedSeats(WithStatus(bs, id, Cancelled), rows, s) == BookedSeats(bs, RowsWithout(rows, id), s)
  {
    if rows != [] {
      var front := rows[..|rows| - 1];
      CancelReleasesSeats(bs, front, id, s);
      HeldInWithStatus(bs, id, Cancelled, rows[|rows| - 1]);
      var last := rows[|rows| - 1];
      BookedSeatsConcat(bs, RowsWithout(front, id), if last.bookingId != id then [last] else [], s);
    }
  }

  lemma WellFormedWithStatus(bs: seq<Booking>, rows: seq<SeatRow>, nextId: nat, id: nat, st: Status)
    requires WellFormed(bs, rows, nextId)
    ensures WellFormed(WithStatus(bs, id, st), rows, nextId)
  {
    forall i | 0 <= i < |rows| ensures Lookup(WithStatus(bs, id, st), rows[i].bookingId).Some? {
      LookupWithStatus(bs, id, st, rows[i].bookingId);
    }
  }

  // ------------------------------------------------------ lemmas: listings

  /** The user listing holds all of the caller's bookings, cancelled ones included, and nothing else. */
  lemma UserListingContents(bs: seq<Booking>, userId: nat, b: Booking)
    ensures b in UserListing(bs, userId) <==> b in bs && b.userId == userId
  {
    var o := OwnedBy(bs, userId);
    if b in o {
      var i :| 0 <= i < |o| && o[i] == b;
      assert UserListing(bs, userId)[|o| - 1 - i] == b;
    }
  }

  /** Filtering keeps the order of creation. */
  lemma {:induction false} OwnedByInOrder(bs: seq<Booking>, userId: nat)
    requires CreatedInOrder(bs)
    ensures CreatedInOrder(OwnedBy(bs, userId))
  {
    if bs != [] {
      var front := bs[..|bs| - 1];
      OwnedByInOrder(front, userId);
      var o := OwnedBy(front, userId);
      forall i | 0 <= i < |o| ensures o[i].createdAt <= bs[|bs| - 1].createdAt {
        assert o[i] in o;
      }
    }
  }

  /** Read from the front, the user listing is newest first. */
  lemma UserListingNewestFirst(bs: seq<Booking>, userId: nat)
    requires CreatedInOrder(bs)
    ensures forall i, j :: 0 <= i < j < |UserListing(bs, userId)| ==>
              UserListing(bs, userId)[i].createdAt >= UserListing(bs, userId)[j].createdAt
  {
    OwnedByInOrder(bs, userId);
  }

  // ----------------------------------------------------------------- results

  datatype CreateResult = Created(bookingId: nat) | SeatTaken | Failed {
    function Code(): int {
      if Created? then 201 else if SeatTaken? then 400 else 500
    }
  }

  datatype CancelResult = CancelDone | NotFound | AlreadyCancelled {
    function Code(): int {
      if CancelDone? then 200 else if NotFound? then 404 else 400
    }
  }

  // ------------------------------------------------------------ the ledger

  /** The two tables and the auto-increment counter of `bookings.id`. */
  class Ledger {
    var bookings: seq<Booking>
    var seatRows: seq<SeatRow>
    var nextId: nat

    ghost predicate Valid()
      reads this
    {
      WellFormed(bookings, seatRows, nextId)
    }

    /** Empty tables; MySQL's auto-increment starts at 1. */
    constructor ()
      ensures Valid()
      ensures bookings == [] && seatRows == [] && nextId == 1
    {
      bookings, seatRows, nextId := [], [], 1;
    }

    /** GET `/schedule/:scheduleId` and the first step of creation: the join over both tables. */
    method ScheduleSeats(scheduleId: nat) returns (seats: seq<Seat>)
      ensures seats == BookedSeats(bookings, seatRows, scheduleId)
    {
      seats := [];
      var i := 0;
      while i < |seatRows|
        invariant 0 <= i <= |seatRows|
        invariant seats == BookedSeats(bookings, seatRows[..i], scheduleId)
      {
        assert seatRows[..i + 1][..i] == seatRows[..i];
        var row := seatRows[i];
        var owner := Lookup(bookings, row.bookingId);
        if owner.Some? && owner.value.scheduleId == scheduleId && owner.value.status != Cancelled {
          seats := seats + [row.seat];
        }
        i := i + 1;
      }
      assert seatRows[..i] == seatRows;
    }

    /**
     * POST `/`: inside one transaction, read the schedule's booked seats,
     * refuse any overlap (400), insert the booking as confirmed and then one
     * seat row per requested seat; an error in the seat insert — always the
     * case for an empty request, whose `VALUES ?` expands to nothing, and
     * otherwise `fault` — rolls both inserts back (500). The auto-increment
     * value taken by a rolled-back insert is not given back.
     */
    method Create(user: Claims, scheduleId: nat, seats: seq<Seat>, totalPrice: int, now: int, fault: bool)
      returns (res: CreateResult)
      requires Valid()
      requires forall i :: 0 <= i < |bookings| ==> bookings[i].createdAt <= now
      modifies this
      ensures Valid()
      ensures res.SeatTaken? <==> AnyTaken(seats, BookedSeats(old(bookings), old(seatRows), scheduleId))
      ensures res.Created? <==> !res.SeatTaken? && seats != [] && !fault
      ensures res.Created? ==>
                && res.bookingId == old(nextId) && nextId == old(nextId) + 1
                && bookings == old(bookings) + [Booking(res.bookingId, user.id, scheduleId, totalPrice, Confirmed, now)]
                && seatRows == old(seatRows) + RowsFor(res.bookingId, seats)
      ensures !res.Created? ==> bookings == old(bookings) && seatRows == old(seatRows)
      ensures res.SeatTaken? ==> nextId == old(nextId)
      ensures res.Failed? ==> nextId == old(nextId) + 1
      ensures old(NoDoubleBooking(bookings, seatRows)) ==> NoDoubleBooking(bookings, seatRows)
    {
      var booked := ScheduleSeats(scheduleId);
      if AnyTaken(seats, booked) {
        return SeatTaken;
      }
      ghost var bs0, rows0 := bookings, seatRows;
      var savedBookings, savedRows := bookings, seatRows;   // beginTransaction
      var bookingId := nextId;
      var booking := Booking(bookingId, user.id, scheduleId, totalPrice, Confirmed, now);
      bookings := bookings + [booking];
      nextId := nextId + 1;
      if seats == [] || fault {
        bookings, seatRows := savedBookings, savedRows;     // rollback
        return Failed;
      }
      seatRows := seatRows + RowsFor(bookingId, seats);     // commit
      LookupAppend(bs0, booking, bookingId);
      forall i | 0 <= i < |seatRows| ensures Lookup(bookings, seatRows[i].bookingId).Some? {
        if i < |rows0| {
          LookupAppend(bs0, booking, seatRows[i].bookingId);
        }
      }
      if NoDoubleBooking(bs0, rows0) {
        CreatePreservesNoDoubleBooking(bs0, rows0, booking, seats);
      }
      return Created(bookingId);
    }

    /**
     * PUT `/:id/cancel`: 404 unless a booking with that id belongs to the
     * caller, 400 if it is already cancelled, otherwise its status becomes
     * cancelled. Its seat rows stay in the table.
     */
    method Cancel(user: Claims, id: nat) returns (res: CancelResult)
      requires Valid()
      modifies this
      ensures Valid()
      ensures res.NotFound? <==> Lookup(old(bookings), id).None? || Lookup(old(bookings), id).value.userId != user.id
      ensures res.AlreadyCancelled? <==> !res.NotFound? && Lookup(old(bookings), id).value.status == Cancelled
      ensures res.CancelDone? ==> bookings == WithStatus(old(bookings), id, Cancelled)
      ensures !res.CancelDone? ==> bookings == old(bookings)
      ensures seatRows == old(seatRows) && nextId == old(nextId)
      ensures old(NoDoubleBooking(bookings, seatRows)) ==> NoDoubleBooking(bookings, seatRows)
    {
      var found := Lookup(bookings, id);
      if found.None? || found.value.userId != user.id {
        return NotFound;
      }
      if found.value.status == Cancelled {
        return AlreadyCancelled;
      }
      if NoDoubleBooking(bookings, seatRows) {
        StatusUpdatePreservesNoDoubleBooking(bookings, seatRows, id, Cancelled);
      }
      SetStatus(id, Cancelled);
      return CancelDone;
    }

    /** `UPDATE bookings SET status = ? WHERE id = ?`, whatever the current status. */
    method SetStatus(id: nat, st: Status)
      requires Valid()
      modifies this`bookings
      ensures Valid()
      ensures bookings == WithStatus(old(bookings), id, st)
    {
      WellFormedWithStatus(bookings, seatRows, nextId, id, st);
      bookings := WithStatus(bookings, id, st);
    }

    /** GET `/user`: the caller's bookings newest first, each with its own seats. */
    method ListForUser(userId: nat) returns (views: seq<BookingView>)
      ensures |views| == |UserListing(bookings, userId)|
      ensures forall i :: 0 <= i < |views| ==>
                views[i] == BookingView(UserListing(bookings, userId)[i], SeatsOf(seatRows, UserListing(bookings, userId)[i].id))
    {
      var listed := UserListing(bookings, userId);
      views := [];
      for i := 0 to |listed|
        invariant |views| == i
        invariant forall k :: 0 <= k < i ==> views[k] == BookingView(listed[k], SeatsOf(seatRows, listed[k].id))
      {
        var seats := SeatsOf(seatRows, listed[i].id);
        views := views + [BookingView(listed[i], seats)];
      }
    }
  }
}
