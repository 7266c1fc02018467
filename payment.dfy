/**
 * The POST `/notification` handler of the payment routes: the booking id is
 * read out of the gateway's `order_id`, the pair (transaction status, fraud
 * status) decides an optional new booking status, and that status is
 * written onto the booking with no look at its current status.
 */
module Payment {
  import opened Wrappers
  import opened Text
  import opened Bookings

  /** The fields the handler reads from the gateway's verified notification. */
  datatype Notification = Notification(orderId: Option<string>, transactionStatus: string, fraudStatus: string)

  /**
   * `orderId.split('-')[1]` used as the id in `WHERE id = ?`. A field that is
   * missing or not a string of digits matches no booking (`None`).
   */
  function OrderBookingId(orderId: string): Option<nat> {
    match Field(orderId, '-', 1)
    case None => None
    case Some(f) => if f != [] && AllDigits(f) then Some(DigitsValue(f)) else None
  }

  /** `order_id` is `prefix-<id>`, optionally followed by `-more`: the id comes back. */
  lemma OrderIdRoundTrip(prefix: string, id: nat, rest: Option<string>)
    requires '-' !in prefix
    ensures OrderBookingId(prefix + "-" + NatToString(id) + (if rest.Some? then "-" + rest.value else "")) == Some(id)
  {
    var d := NatToString(id);
    assert forall k :: 0 <= k < |d| ==> IsDigit(d[k]);
    var tail := if rest.Some? then "-" + rest.value else "";
    assert prefix + "-" + d + tail == prefix + ['-'] + (d + tail);
    SplitPrefix(prefix, d + tail, '-');
    if rest.Some? {
      assert d + tail == d + ['-'] + rest.value;
      SplitPrefix(d, rest.value, '-');
    } else {
      assert d + tail == d;
      SplitNoSeparator(d, '-');
    }
  }

  /** `BOOKING-42` and the test script's `BOOKING-42-MOCK` both name booking 42. */
  lemma OrderIdExamples()
    ensures OrderBookingId("BOOKING-42") == Some(42)
    ensures OrderBookingId("BOOKING-42-MOCK") == Some(42)
  {
    assert NatToString(42) == "42" by {
      assert NatToString(4) == "4";
    }
    OrderIdRoundTrip("BOOKING", 42, None);
    assert "BOOKING" + "-" + "42" + "" == "BOOKING-42";
    OrderIdRoundTrip("BOOKING", 42, Some("MOCK"));
    assert "BOOKING" + "-" + "42" + ("-" + "MOCK") == "BOOKING-42-MOCK";
  }

  /** The status chain of lines 23-35: a total decision, `None` meaning no update is issued. */
  function Decide(transactionStatus: string, fraudStatus: string): (r: Option<Status>)
    ensures r == Some(Confirmed) <==>
              transactionStatus == "settlement" || (transactionStatus == "capture" && fraudStatus == "accept")
    ensures r == Some(Pending) <==>
              transactionStatus == "pending" || (transactionStatus == "capture" && fraudStatus == "challenge")
    ensures r == Some(Cancelled) <==> transactionStatus in {"cancel", "deny", "expire"}
  {
    if transactionStatus == "capture" then
      if fraudStatus == "challenge" then Some(Pending)
      else if fraudStatus == "accept" then Some(Confirmed)
      else None
    else if transactionStatus == "settlement" then Some(Confirmed)
    else if transactionStatus == "cancel" || transactionStatus == "deny" || transactionStatus == "expire" then Some(Cancelled)
    else if transactionStatus == "pending" then Some(Pending)
    else None
  }

  /** The bookings table after a notification whose `order_id` is present. */
  function Apply(bs: seq<Booking>, orderId: string, transactionStatus: string, fraudStatus: string): seq<Booking> {
    match (OrderBookingId(orderId), Decide(transactionStatus, fraudStatus))
    case (Some(id), Some(st)) => WithStatus(bs, id, st)
    case _ => bs
  }

  /** Delivering the same notification twice leaves the table as delivering it once. */
  lemma ApplyIdempotent(bs: seq<Booking>, orderId: string, tx: string, fraud: string)
    ensures Apply(Apply(bs, orderId, tx, fraud), orderId, tx, fraud) == Apply(bs, orderId, tx, fraud)
  {
  }

  /**
   * Only the booking named by the order id is touched, and it takes the
   * decided status whatever its stored one; every other booking is unchanged.
   */
  lemma ApplyTouchesOnlyNamedBooking(bs: seq<Booking>, orderId: string, tx: string, fraud: string, k: nat)
    requires k < |bs|
    ensures |Apply(bs, orderId, tx, fraud)| == |bs|
    ensures var a := Apply(bs, orderId, tx, fraud);
            if OrderBookingId(orderId) == Some(bs[k].id) && Decide(tx, fraud).Some?
            then a[k] == bs[k].(status := Decide(tx, fraud).value)
            else a[k] == bs[k]
  {
  }

  /** No guard on the stored status: a confirmed booking goes back to pending on a `pending` notification. */
  lemma ConfirmedCanRevertToPending(b: Booking)
    requires b.status == Confirmed
    ensures Apply([b], "BOOKING-" + NatToString(b.id), "pending", "") == [b.(status := Pending)]
  {
    OrderIdRoundTrip("BOOKING", b.id, None);
    assert "BOOKING" + "-" + NatToString(b.id) + "" == "BOOKING-" + NatToString(b.id);
  }

  /** A notification that does not re-activate a cancelled booking keeps the no-double-booking invariant. */
  lemma ApplyPreservesNoDoubleBooking(bs: seq<Booking>, rows: seq<SeatRow>, orderId: string, tx: string, fraud: string)
    requires NoDoubleBooking(bs, rows)
    requires Decide(tx, fraud) == Some(Cancelled)
          || OrderBookingId(orderId).None?
          || Lookup(bs, OrderBookingId(orderId).value).None?
          || Lookup(bs, OrderBookingId(orderId).value).value.status != Cancelled
    ensures NoDoubleBooking(Apply(bs, orderId, tx, fraud), rows)
  {
    match (OrderBookingId(orderId), Decide(tx, fraud))
    case (Some(id), Some(st)) => StatusUpdatePreservesNoDoubleBooking(bs, rows, id, st);
    case _ =>
  }

  /** Booking 1 (cancelled) and booking 2 (confirmed), both for schedule 7 and both with seat A1. */
  const RebookedBookings: seq<Booking> := [Booking(1, 10, 7, 50000, Cancelled, 0), Booking(2, 11, 7, 50000, Confirmed, 1)]
  const RebookedRows: seq<SeatRow> := [SeatRow(1, Seat("A", 1)), SeatRow(2, Seat("A", 1))]

  lemma RebookedStateConsistent()
    ensures WellFormed(RebookedBookings, RebookedRows, 3)
    ensures NoDoubleBooking(RebookedBookings, RebookedRows)
  {
    var bs := RebookedBookings;
    assert Lookup(bs, 1) == Some(bs[0]) by { assert bs[..1] == [bs[0]]; }
    assert Lookup(bs, 2) == Some(bs[1]);
    assert HeldIn(bs, RebookedRows[0]) == None;
  }

  lemma SettlementConfirmsBookingOne()
    ensures Apply(RebookedBookings, "BOOKING-1", "settlement", "accept") == WithStatus(RebookedBookings, 1, Confirmed)
  {
    assert NatToString(1) == "1";
    OrderIdRoundTrip("BOOKING", 1, None);
    assert "BOOKING" + "-" + "1" + "" == "BOOKING-1";
  }

  /**
   * The invariant is not kept in general: booking 1 is cancelled and its
   * seat A1 rebooked by booking 2; a late `settlement` for `BOOKING-1`
   * confirms booking 1 again, and A1 is held twice in schedule 7.
   */
  lemma SettlementAfterCancelDoubleBooks()
    ensures WellFormed(RebookedBookings, RebookedRows, 3) && NoDoubleBooking(RebookedBookings, RebookedRows)
    ensures !NoDoubleBooking(Apply(RebookedBookings, "BOOKING-1", "settlement", "accept"), RebookedRows)
  {
    RebookedStateConsistent();
    SettlementConfirmsBookingOne();
    var after := WithStatus(RebookedBookings, 1, Confirmed);
    assert Lookup(after, 1) == Some(after[0]) by { assert after[..1] == [after[0]]; }
    assert HeldIn(after, RebookedRows[0]) == Some(7);
    assert HeldIn(after, RebookedRows[1]) == Some(7);
  }

  datatype NotificationResult = NotifyOk | NotifyError {
    function Code(): int {
      if NotifyOk? then 200 else 500
    }
  }

  /**
   * POST `/notification`: a notification without `order_id` throws at the
   * split and answers 500 with no change; any other answers 200 `OK` after
   * issuing at most one UPDATE. A storage error, which also answers 500, is
   * not modelled.
   */
  method HandleNotification(ledger: Ledger, n: Notification) returns (res: NotificationResult)
    requires ledger.Valid()
    modifies ledger
    ensures ledger.Valid()
    ensures res.NotifyError? <==> n.orderId.None?
    ensures ledger.bookings == if n.orderId.None? then old(ledger.bookings)
                               else Apply(old(ledger.bookings), n.orderId.value, n.transactionStatus, n.fraudStatus)
    ensures ledger.seatRows == old(ledger.seatRows) && ledger.nextId == old(ledger.nextId)
  {
    if n.orderId.None? {
      return NotifyError;
    }
    var bookingId := OrderBookingId(n.orderId.value);
    var decision := Decide(n.transactionStatus, n.fraudStatus);
    if decision.Some? && bookingId.Some? {
      ledger.SetStatus(bookingId.value, decision.value);
    }
    return NotifyOk;
  }
}
