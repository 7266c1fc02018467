/**
 * The `/admin` routes: the `isAdmin` role gate, the dashboard aggregates
 * over the `bookings` table and the system-wide booking listing.
 */
module Admin {
  import opened Wrappers
  import opened Tokens
  import opened Seqs
  import opened Bookings

  // ---------------------------------------------------------------- isAdmin

  datatype GateResult = Admitted(admin: Claims) | NoToken | BadToken | NotAdmin {
    /** The HTTP status the gate answers with when it stops the request. */
    function Code(): int requires !Admitted? {
      if NoToken? then 401 else if NotAdmin? then 403 else 400
    }
  }

  const AdminRole: string := "admin"

  /**
   * The `isAdmin` middleware: no header is 401, a token that is missing
   * from the header or does not verify is 400, a verified caller whose role
   * is not `admin` is 403; only an admin reaches the route. Unlike
   * `verifyToken` it has no mock-token branch.
   */
  function IsAdmin(header: Option<string>, decode: string -> Option<Claims>): (r: GateResult)
    ensures r.NoToken? <==> Falsy(header)
    ensures r.BadToken? <==> !Falsy(header) && BearerClaims(header.value, decode).None?
    ensures r.NotAdmin? <==>
              !Falsy(header) && BearerClaims(header.value, decode).Some?
              && BearerClaims(header.value, decode).value.role != Some(AdminRole)
    ensures r.Admitted? ==> r.admin.role == Some(AdminRole) && BearerClaims(header.value, decode) == Some(r.admin)
  {
    if Falsy(header) then NoToken
    else match BearerClaims(header.value, decode)
      case None => BadToken
      case Some(claims) => if claims.role != Some(AdminRole) then NotAdmin else Admitted(claims)
  }

  /**
   * The mock token opens the booking routes but not the admin routes: for
   * any decoder that does not verify it, `verifyToken` lets it through as
   * user 1 and `isAdmin` answers 400.
   */
  lemma MockTokenIsNotAdmin(decode: string -> Option<Claims>)
    requires decode(MockToken).None?
    ensures VerifyToken(Some("Bearer " + MockToken), decode) == Authenticated(MockUser)
    ensures IsAdmin(Some("Bearer " + MockToken), decode) == BadToken
  {
    MockTokenBypass("Bearer ", "", decode);
    assert "Bearer " + MockToken + "" == "Bearer " + MockToken;
    BearerOfScheme("Bearer", MockToken);
    assert "Bearer" + " " + MockToken == "Bearer " + MockToken;
  }

  // ------------------------------------------------------------------ stats

  /** `SELECT COUNT(*) FROM bookings WHERE status = ?`. */
  function CountStatus(bs: seq<Booking>, st: Status): (n: nat)
    ensures n <= |bs|
  {
    if bs == [] then 0
    else CountStatus(bs[..|bs| - 1], st) + (if bs[|bs| - 1].status == st then 1 else 0)
  }

  /** `SUM(total_price) ... WHERE status = "confirmed"`, with SQL's `NULL` for no rows read as 0 by `|| 0`. */
  function Revenue(bs: seq<Booking>): int {
    if bs == [] then 0
    else Revenue(bs[..|bs| - 1]) + Earned(bs[|bs| - 1])
  }

  datatype DashboardStats = DashboardStats(totalBookings: nat, totalRevenue: int, pendingCount: nat, confirmedCount: nat)

  /**
   * GET `/stats`. Every booking counts towards the total whatever its
   * status, only confirmed bookings bring revenue, and the pending and
   * confirmed counts together never exceed the total.
   */
  function Stats(bs: seq<Booking>): (r: DashboardStats)
    ensures r.totalBookings == |bs|
    ensures r.pendingCount + r.confirmedCount <= r.totalBookings
    ensures r.confirmedCount == 0 ==> r.totalRevenue == 0
  {
    StatusCountsPartition(bs);
    NoConfirmedNoRevenue(bs);
    DashboardStats(|bs|, Revenue(bs), CountStatus(bs, Pending), CountStatus(bs, Confirmed))
  }

  /** Each booking has exactly one of the three statuses. */
  lemma {:induction false} StatusCountsPartition(bs: seq<Booking>)
    ensures CountStatus(bs, Pending) + CountStatus(bs, Confirmed) + CountStatus(bs, Cancelled) == |bs|
  {
    if bs != [] {
      StatusCountsPartition(bs[..|bs| - 1]);
    }
  }

  /** Without a confirmed booking the revenue is 0. */
  lemma {:induction false} NoConfirmedNoRevenue(bs: seq<Booking>)
    ensures CountStatus(bs, Confirmed) == 0 ==> Revenue(bs) == 0
  {
    if bs != [] {
      NoConfirmedNoRevenue(bs[..|bs| - 1]);
    }
  }

  /** Revenue only counts confirmed bookings: pending and cancelled bookings may be anything. */
  lemma {:induction false} RevenueOfConfirmedOnly(bs: seq<Booking>, other: seq<Booking>)
    requires |bs| == |other|
    requires forall k :: 0 <= k < |bs| ==> (bs[k].status == Confirmed || other[k].status == Confirmed) ==> bs[k] == other[k]
    ensures Revenue(bs) == Revenue(other)
  {
    if bs != [] {
      RevenueOfConfirmedOnly(bs[..|bs| - 1], other[..|other| - 1]);
    }
  }

  /** A successful creation adds one confirmed booking: the total, the confirmed count and the revenue grow accordingly. */
  lemma StatsAfterCreate(bs: seq<Booking>, b: Booking)
    requires b.status == Confirmed
    ensures Stats(bs + [b]) == Stats(bs).(totalBookings := |bs| + 1,
                                          totalRevenue := Stats(bs).totalRevenue + b.totalPrice,
                                          confirmedCount := Stats(bs).confirmedCount + 1)
  {
    assert (bs + [b])[..|bs|] == bs;
  }

  /** An update that finds no booking with that id changes nothing. */
  lemma WithStatusAbsent(bs: seq<Booking>, id: nat, st: Status)
    requires forall k :: 0 <= k < |bs| ==> bs[k].id != id
    ensures WithStatus(bs, id, st) == bs
  {
  }

  /** What one booking adds to the revenue. */
  function Earned(b: Booking): int {
    if b.status == Confirmed then b.totalPrice else 0
  }

  /** With unique ids, a status update swaps the updated booking's share of the revenue. */
  lemma {:induction false} RevenueAfterUpdate(bs: seq<Booking>, id: nat, st: Status)
    requires forall i, j :: 0 <= i < j < |bs| ==> bs[i].id < bs[j].id
    requires Lookup(bs, id).Some?
    ensures Revenue(WithStatus(bs, id, st)) + Earned(Lookup(bs, id).value)
         == Revenue(bs) + Earned(Lookup(bs, id).value.(status := st))
  {
    var n := |bs|;
    var front, last := bs[..n - 1], bs[n - 1];
    var a, fa := WithStatus(bs, id, st), WithStatus(front, id, st);
    WithStatusSnoc(bs, id, st);
    assert Revenue(a) == Revenue(fa) + Earned(a[n - 1]);
    assert Revenue(bs) == Revenue(front) + Earned(last);
    if last.id == id {
      assert Lookup(bs, id) == Some(last);
      FrontLacksLastId(bs, front);
      WithStatusAbsent(front, id, st);
    } else {
      assert Lookup(front, id) == Lookup(bs, id);
      IdsIncreasingFront(bs, front);
      RevenueAfterUpdate(front, id, st);
    }
  }

  /** With unique ids, a status update moves the updated booking from its old status's count to the new one's. */
  lemma {:induction false} CountAfterUpdate(bs: seq<Booking>, id: nat, st: Status, q: Status)
    requires forall i, j :: 0 <= i < j < |bs| ==> bs[i].id < bs[j].id
    requires Lookup(bs, id).Some?
    ensures CountStatus(WithStatus(bs, id, st), q) + (if Lookup(bs, id).value.status == q then 1 else 0)
         == CountStatus(bs, q) + (if st == q then 1 else 0)
  {
    var n := |bs|;
    var front, last := bs[..n - 1], bs[n - 1];
    var a, fa := WithStatus(bs, id, st), WithStatus(front, id, st);
    WithStatusSnoc(bs, id, st);
    assert CountStatus(a, q) == CountStatus(fa, q) + (if a[n - 1].status == q then 1 else 0);
    assert CountStatus(bs, q) == CountStatus(front, q) + (if last.status == q then 1 else 0);
    if last.id == id {
      assert Lookup(bs, id) == Some(last);
      FrontLacksLastId(bs, front);
      WithStatusAbsent(front, id, st);
    } else {
      assert Lookup(front, id) == Lookup(bs, id);
      IdsIncreasingFront(bs, front);
      CountAfterUpdate(front, id, st, q);
    }
  }

  /** With increasing ids, no row before the last has the last row's id. */
  lemma FrontLacksLastId(bs: seq<Booking>, front: seq<Booking>)
    requires bs != [] && front == bs[..|bs| - 1]
    requires forall i, j :: 0 <= i < j < |bs| ==> bs[i].id < bs[j].id
    ensures forall k :: 0 <= k < |front| ==> front[k].id != bs[|bs| - 1].id
  {
  }

  /** Increasing ids stay increasing without the last row. */
  lemma IdsIncreasingFront(bs: seq<Booking>, front: seq<Booking>)
    requires bs != [] && front == bs[..|bs| - 1]
    requires forall i, j :: 0 <= i < j < |bs| ==> bs[i].id < bs[j].id
    ensures forall i, j :: 0 <= i < j < |front| ==> front[i].id < front[j].id
  {
  }

  /** A status update seen as an update of all rows but the last, then of the last. */
  lemma WithStatusSnoc(bs: seq<Booking>, id: nat, st: Status)
    requires bs != []
    ensures var a, n := WithStatus(bs, id, st), |bs|;
            && a[..n - 1] == WithStatus(bs[..n - 1], id, st)
            && a[n - 1] == if bs[n - 1].id == id then bs[n - 1].(status := st) else bs[n - 1]
  {
  }

  /**
   * With unique ids, cancelling a confirmed booking takes its price out of
   * the revenue and moves it from the confirmed to the cancelled count.
   */
  lemma CancelConfirmedTotals(bs: seq<Booking>, id: nat)
    requires forall i, j :: 0 <= i < j < |bs| ==> bs[i].id < bs[j].id
    requires Lookup(bs, id).Some? && Lookup(bs, id).value.status == Confirmed
    ensures Revenue(WithStatus(bs, id, Cancelled)) == Revenue(bs) - Lookup(bs, id).value.totalPrice
    ensures CountStatus(WithStatus(bs, id, Cancelled), Confirmed) + 1 == CountStatus(bs, Confirmed)
    ensures CountStatus(WithStatus(bs, id, Cancelled), Pending) == CountStatus(bs, Pending)
  {
    RevenueAfterUpdate(bs, id, Cancelled);
    CountAfterUpdate(bs, id, Cancelled, Confirmed);
    CountAfterUpdate(bs, id, Cancelled, Pending);
  }

  /** The dashboard after a successful cancellation of a confirmed booking. */
  lemma CancelConfirmedStats(bs: seq<Booking>, id: nat)
    requires forall i, j :: 0 <= i < j < |bs| ==> bs[i].id < bs[j].id
    requires Lookup(bs, id).Some? && Lookup(bs, id).value.status == Confirmed
    ensures var before, after := Stats(bs), Stats(WithStatus(bs, id, Cancelled));
            && after.totalBookings == before.totalBookings
            && after.totalRevenue == before.totalRevenue - Lookup(bs, id).value.totalPrice
            && after.confirmedCount + 1 == before.confirmedCount
            && after.pendingCount == before.pendingCount
  {
    CancelConfirmedTotals(bs, id);
  }

  // ---------------------------------------------------------------- listing

  /** `ORDER BY b.created_at DESC` over the whole table. */
  function AllNewestFirst(bs: seq<Booking>): (r: seq<Booking>)
    ensures forall b :: b in r <==> b in bs
    ensures CreatedInOrder(bs) ==> forall i, j :: 0 <= i < j < |r| ==> r[i].createdAt >= r[j].createdAt
  {
    Reverse(bs)
  }

  /** GET `/bookings`: every booking of every user, newest first, each with its own seats. */
  method ListAll(ledger: Ledger) returns (views: seq<BookingView>)
    ensures |views| == |ledger.bookings|
    ensures forall i :: 0 <= i < |views| ==>
              views[i] == BookingView(AllNewestFirst(ledger.bookings)[i], SeatsOf(ledger.seatRows, AllNewestFirst(ledger.bookings)[i].id))
  {
    var listed := AllNewestFirst(ledger.bookings);
    views := [];
    for i := 0 to |listed|
      invariant |views| == i
      invariant forall k :: 0 <= k < i ==> views[k] == BookingView(listed[k], SeatsOf(ledger.seatRows, listed[k].id))
    {
      var seats := SeatsOf(ledger.seatRows, listed[i].id);
      views := views + [BookingView(listed[i], seats)];
    }
  }
}
