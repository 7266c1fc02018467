/**
 * The admin dashboard's booking table: the search filter, the padded id
 * shown in the first column and the colour of the status badge.
 */
module Dashboard {
  import opened Text
  import opened Seqs

  /** A row of `/admin/bookings` as the dashboard reads it; `status` is the column's text. */
  datatype AdminRow = AdminRow(id: nat, userName: string, movieTitle: string, status: string)

  /**
   * The filter: the query occurs, ignoring case, in the user's name or the
   * movie title, or occurs as typed in the decimal id.
   */
  predicate MatchesQuery(b: AdminRow, query: string) {
    || ContainsIgnoreCase(b.userName, query)
    || ContainsIgnoreCase(b.movieTitle, query)
    || Contains(NatToString(b.id), query)
  }

  /** `filteredBookings`. */
  function Filtered(bookings: seq<AdminRow>, query: string): (r: seq<AdminRow>)
    ensures forall k :: 0 <= k < |r| ==> r[k] in bookings && MatchesQuery(r[k], query)
    ensures forall k :: 0 <= k < |bookings| && MatchesQuery(bookings[k], query) ==> bookings[k] in r
    ensures Sublist(r, bookings)
  {
    FilterSublist((b: AdminRow) => MatchesQuery(b, query), bookings);
    Filter((b: AdminRow) => MatchesQuery(b, query), bookings)
  }

  /** An empty query keeps every booking, in order. */
  lemma EmptyQueryKeepsAll(bookings: seq<AdminRow>)
    ensures Filtered(bookings, "") == bookings
  {
    forall k | 0 <= k < |bookings| ensures MatchesQuery(bookings[k], "") {
      ContainsIgnoreCaseEmpty(bookings[k].userName);
    }
    FilterKeepsAll((b: AdminRow) => MatchesQuery(b, ""), bookings);
  }

  /** Searching for a booking's decimal id finds it. */
  lemma IdSearchFinds(b: AdminRow)
    ensures MatchesQuery(b, NatToString(b.id))
  {
    ContainsSelf(NatToString(b.id));
  }

  // ------------------------------------------------------------- id column

  /** `booking.id.toString().padStart(5, '0')`. */
  function DisplayId(id: nat): (r: string)
    ensures |r| == if |NatToString(id)| >= 5 then |NatToString(id)| else 5
    ensures |NatToString(id)| >= 5 ==> r == NatToString(id)
    ensures AllDigits(r) && DigitsValue(r) == id
  {
    var digits := NatToString(id);
    var r := PadStart(digits, 5, '0');
    assert AllDigits(r) && DigitsValue(r) == id by {
      if |digits| < 5 {
        ZerosKeepValue(Repeat('0', 5 - |digits|), digits);
      }
    }
    r
  }

  /** Leading zeros do not change the value of a digit string. */
  lemma {:induction false} ZerosKeepValue(zeros: string, s: string)
    requires forall i :: 0 <= i < |zeros| ==> zeros[i] == '0'
    requires AllDigits(s)
    ensures AllDigits(zeros + s) && DigitsValue(zeros + s) == DigitsValue(s)
  {
    if s == [] {
      assert zeros + s == zeros;
      AllZerosValue(zeros);
    } else {
      var n := |s|;
      assert (zeros + s)[..|zeros| + n - 1] == zeros + s[..n - 1];
      ZerosKeepValue(zeros, s[..n - 1]);
    }
  }

  lemma {:induction false} AllZerosValue(zeros: string)
    requires forall i :: 0 <= i < |zeros| ==> zeros[i] == '0'
    ensures AllDigits(zeros) && DigitsValue(zeros) == 0
  {
    if zeros != [] {
      AllZerosValue(zeros[..|zeros| - 1]);
    }
  }

  /** Booking 42 is shown as `00042`. */
  lemma DisplayIdExample()
    ensures DisplayId(42) == "00042"
  {
    assert NatToString(42) == "42" by {
      assert NatToString(4) == "4";
    }
  }

  // ----------------------------------------------------------------- badge

  datatype Badge = Green | Yellow | Red

  /** The status badge: `confirmed` green, `pending` yellow, anything else red. */
  function BadgeOf(status: string): (r: Badge)
    ensures r == Green <==> status == "confirmed"
    ensures r == Yellow <==> status == "pending"
    ensures r == Red <==> status != "confirmed" && status != "pending"
  {
    if status == "confirmed" then Green else if status == "pending" then Yellow else Red
  }
}
