# Cinema booking: a verified model of its core

This project models the core of a cinema booking application written in
JavaScript. The server is Express over MySQL; the client is React. The model
covers the following:

- **The booking ledger** (`bookings.dfy`).
  - It is a class holding the `bookings` table, the `booking_seats` table and the auto-increment counter.
  - Operations: the booked-seat query of a schedule; seat reservation inside one rollback-able transaction; cancellation; the per-user listing.
  - The `verifyToken` middleware, including its mock-token bypass.
  - The invariant that matters is that no seat is held by two non-cancelled bookings of one schedule. Creation and cancellation preserve it.
- **The payment-notification handler** (`payment.dfy`).
  - The booking id is read out of `order_id`.
  - A total decision maps `(transaction_status, fraud_status)` to an optional new status.
  - The unguarded update writes that status onto one booking.
  - A concrete counterexample shows that a late `settlement` for a cancelled booking whose seat was rebooked breaks the no-double-booking invariant.
- **The admin routes** (`admin.dfy`): the `isAdmin` gate, the dashboard aggregates, and the system-wide listing.
- **The review routes** (`reviews.dfy`): the token middleware, the required-field check, the owner-or-admin rule for deletion, and both listings.
- **The auth routes** (`auth.dfy`): registration with its duplicate-email check, login, and the profile update with its email-in-use check. Email uniqueness of the `users` table is kept as a class invariant.
- **The schema loader** (`setup.js`, modelled in `setup.dfy`): it splits, trims and filters the commands, then runs them in order.
- **Client-side logic**:
  - the seat map (`seatgrid.dfy`);
  - seat selection, price and the booking guard (`moviedetails.dfy`);
  - the review form's reducer, validator and stars (`reviewform.dfy`);
  - the review list updates and filter (`reviewspage.dfy`);
  - the admin dashboard's filter, id display and badge (`dashboard.dfy`);
  - the home page's movie filter and genre badge (`home.dfy`);
  - the profile initials and form updates (`profile.dfy`).

Shared modules:

- `wrappers.dfy` holds `Option`.
- `text.dfy` restates the JavaScript string operations the code relies on: `includes`, one-character `split`, `trim`, ASCII case mapping, `toString` of naturals, `parseInt`, `padStart`.
- `seqs.dfy` holds `reverse`, `filter` and order-preserving sublists.
- `tokens.dfy` holds the `Authorization` header conventions.

Some things outside the program are turned into parameters:

- `jwt.verify` becomes `decode: string -> Option<Claims>`.
- `bcrypt.hash` and `bcrypt.compare` become function parameters.
- The clock becomes a `now` argument.
- An arbitrary storage failure during booking becomes a `fault` flag.
- The `users.role` column default becomes a constructor argument.

Where the intended design and the code differ, the model follows the code:

- A new booking is stored as `confirmed`, not `pending` (server/routes/bookings.js:54).
- Creation answers only the new `bookingId`; no payment transaction is created.
- A payment notification overwrites the status whatever it was, so `confirmed` and `cancelled` are not terminal.

## Model

| member | source | states |
|---|---|---|
| Bookings.VerifyToken | server/routes/bookings.js:5-23 | A missing or empty header is 401. A header containing the mock token admits the fixed user 1. Any other header is 400 exactly when its bearer part does not decode; when it decodes, the admitted user is exactly the decoded claims. |
| Bookings.MockTokenBypass | server/routes/bookings.js:9-12 | Any header containing `mock-token-12345` is admitted as user 1 with no role, whatever the decoder says. |
| Bookings.Lookup | server/routes/bookings.js:108 | The row found has the id asked for and is in the table; none is found exactly when no row has that id. |
| Bookings.BookedSeats | server/routes/bookings.js:33-38 | A seat is in the booked set exactly when some seat row carries it and belongs to a booking of that schedule whose status is not cancelled. Pending and confirmed both hold seats. |
| Bookings.HeldIn | server/routes/bookings.js:35-37 | A seat row is held in a schedule only when some booking with the row's booking id is for that schedule and is not cancelled; a row whose booking id names no booking is held nowhere. |
| Bookings.AnyTaken | server/routes/bookings.js:42-44 | True exactly when some requested seat equals some booked seat, matching both row and number. |
| Bookings.RowsFor | server/routes/bookings.js:60 | One seat row per requested seat, in request order, each carrying the new booking id. |
| Bookings.SeatsOf | server/routes/bookings.js:93 | A seat is listed exactly when some row carries it with that booking id; its order is stated by `Bookings.SeatsOfConcat`. |
| Bookings.RowsWithout | server/routes/bookings.js:93 | Exactly the rows that belong to some other booking. |
| Bookings.WithStatus | server/routes/bookings.js:120 | Same length; the rows with that id take the new status and every other row is unchanged. |
| Bookings.OwnedBy | server/routes/bookings.js:88 | Exactly the bookings of that user. |
| Bookings.LookupAppend | server/routes/bookings.js:52-56 | After an append, a lookup finds the new booking by its fresh id and finds every older id as before. |
| Bookings.HeldInAppend | server/routes/bookings.js:52-56 | Appending a booking with a fresh id does not change which booking holds an existing seat row. |
| Bookings.BookedSeatsConcat | server/routes/bookings.js:33-38 | The booked set over two blocks of seat rows is the booked set of the first followed by that of the second. |
| Bookings.BookedSeatsSameHolding | server/routes/bookings.js:33-38 | Two booking tables that agree on which rows are held give the same booked set. |
| Bookings.BookedSeatsOfNewRows | server/routes/bookings.js:60-63 | The rows of a new non-cancelled booking add exactly the requested seats to its schedule's booked set. |
| Bookings.CreateBooksRequestedSeats | server/routes/bookings.js:60-63 | After a successful create, that schedule's booked set is the old set followed by exactly the requested seats; other schedules are unchanged. |
| Bookings.CreatePreservesNoDoubleBooking | server/routes/bookings.js:42-63 | An insert whose requested seats are none of them already booked in that schedule keeps every seat held by at most one live booking per schedule. Repeats inside the request all belong to the one new booking. |
| Bookings.CreateSeatsOfNewBooking | server/routes/bookings.js:60-63 | The new booking's own seat list is exactly the requested seats. |
| Bookings.SeatsOfConcat | server/routes/bookings.js:93 | The seats of a booking over two blocks of rows are the first block's followed by the second's. |
| Bookings.SeatsOfNone | server/routes/bookings.js:93 | A booking that holds no rows has no seats. |
| Bookings.SeatsOfRowsFor | server/routes/bookings.js:60 | The rows inserted for a booking give back the requested seats. |
| Bookings.LookupWithStatus | server/routes/bookings.js:120 | After a status update, the updated id is found with the new status and every other id is found as before. |
| Bookings.HeldInWithStatus | server/routes/bookings.js:120 | After a status update, rows of other bookings are held as before; rows of the updated booking are held unless the new status is cancelled. |
| Bookings.StatusUpdatePreservesNoDoubleBooking | server/routes/bookings.js:120 | Cancelling a booking, or changing a booking that is not cancelled, keeps the no-double-booking invariant. |
| Bookings.CancelReleasesSeats | server/routes/bookings.js:120-136 | After cancellation the booked set is what the rows of the other bookings give: the cancelled booking's rows stay in the table but contribute nothing. |
| Bookings.WellFormedWithStatus | server/routes/bookings.js:120 | A status update keeps the table's structural invariants: ids, creation order, and every seat row's booking exists. |
| Bookings.UserListingContents | server/routes/bookings.js:82-90 | The user listing contains every booking of the caller, cancelled ones included, and nothing else. |
| Bookings.UserListing | server/routes/bookings.js:82-89 | No contract of its own: its contents are stated by `Bookings.UserListingContents` and its order by `Bookings.UserListingNewestFirst`. |
| Bookings.OwnedByInOrder | server/routes/bookings.js:88-89 | Filtering by user keeps the creation order. |
| Bookings.UserListingNewestFirst | server/routes/bookings.js:89 | The user listing is ordered by creation time, newest first. |
| Bookings.Ledger.constructor | server/routes/bookings.js:52-56 | Empty tables, and the auto-increment counter starts at 1. |
| Bookings.Ledger.ScheduleSeats | server/routes/bookings.js:129-137 | The loop over the seat rows returns exactly the booked set of the schedule. |
| Bookings.Ledger.Create | server/routes/bookings.js:25-77 | 400 exactly when a requested seat is booked. A commit happens exactly when, on top of that, seats is non-empty and no fault occurs. A commit appends one confirmed booking with the fresh id, the caller's id, the schedule and the client's price unchanged, plus one seat row per requested seat. Any other outcome leaves both tables unchanged; a rolled-back insert still consumes an id. No double booking is preserved. |
| Bookings.Ledger.Cancel | server/routes/bookings.js:105-127 | 404 exactly when no booking with that id is the caller's. 400 exactly when it is already cancelled. Otherwise only that booking becomes cancelled, pending or confirmed alike. Seat rows are kept, and no double booking is preserved. |
| Bookings.Ledger.SetStatus | server/routes/bookings.js:120 | The bookings table becomes the status update of the named id, whatever its status was. |
| Bookings.Ledger.ListForUser | server/routes/bookings.js:80-97 | One view per listed booking, in listing order, each carrying exactly that booking's seats. |
| Payment.OrderIdRoundTrip | server/routes/payment.js:21 | For `prefix-<id>` and `prefix-<id>-<rest>`, with no `-` in the prefix, the parsed booking id is `id`. |
| Payment.OrderIdExamples | server/test-payment.js:14 | `BOOKING-42` and `BOOKING-42-MOCK` both name booking 42. |
| Payment.Decide | server/routes/payment.js:23-35 | Confirmed exactly for `settlement` or `capture`+`accept`. Pending exactly for `pending` or `capture`+`challenge`. Cancelled exactly for `cancel`, `deny` or `expire`. Nothing otherwise. |
| Payment.Apply | server/routes/payment.js:21-35 | No contract of its own: `Payment.ApplyTouchesOnlyNamedBooking` states that only the parsed booking changes and takes the decided status, and `Payment.ApplyIdempotent` that a repeat changes nothing more. |
| Payment.ApplyIdempotent | server/routes/payment.js:23-35 | Applying the same notification twice equals applying it once. |
| Payment.ApplyTouchesOnlyNamedBooking | server/routes/payment.js:25-34 | Only the booking whose id was parsed changes, and it takes the decided status; every other booking is unchanged. |
| Payment.ConfirmedCanRevertToPending | server/routes/payment.js:33-34 | A confirmed booking goes back to pending on a `pending` notification. |
| Payment.ApplyPreservesNoDoubleBooking | server/routes/payment.js:23-35 | A notification that does not re-activate a cancelled booking keeps the no-double-booking invariant. |
| Payment.RebookedStateConsistent | server/routes/payment.js:29-30 | The counterexample state is well formed and has no double booking. |
| Payment.SettlementConfirmsBookingOne | server/routes/payment.js:29-30 | In that state, `settlement` for `BOOKING-1` sets booking 1 to confirmed. |
| Payment.SettlementAfterCancelDoubleBooks | server/routes/payment.js:29-30 | A late `settlement` for a cancelled booking whose seat was rebooked leaves that seat held twice in one schedule. |
| Payment.HandleNotification | server/routes/payment.js:12-42 | With storage errors left out: 500 with no change exactly when `order_id` is missing, since the split throws; otherwise 200 after at most one unguarded update. The seat rows and the counter are unchanged. |
| Tokens.Bearer | server/routes/admin.js:12 | `header.split(' ')[1]` when present and non-empty. |
| Tokens.BearerOfScheme | server/routes/admin.js:12 | `Bearer <token>` with a space-free non-empty token yields that token. |
| Tokens.BearerNeedsSpace | server/routes/admin.js:12 | A header with no space has no bearer part. |
| Tokens.BearerClaims | server/routes/admin.js:12-13 | Claims exist exactly when there is a bearer part and it decodes. |
| Admin.IsAdmin | server/routes/admin.js:7-24 | A falsy header is 401. A bearer that is missing or does not decode is 400. A decoded role other than `admin` is 403. Only role `admin` is admitted, with its claims. |
| Admin.MockTokenIsNotAdmin | server/routes/admin.js:7-23 | For every decoder that does not verify the bookings mock token, `Bearer <mock token>` is admitted by `verifyToken` as user 1 but refused by `isAdmin` with 400. |
| Admin.CountStatus | server/routes/admin.js:31-32 | The count of bookings with a status is at most the table size. |
| Admin.Stats | server/routes/admin.js:27-39 | `totalBookings` counts every booking. Pending plus confirmed is at most the total. No confirmed booking means revenue 0. |
| Admin.StatusCountsPartition | server/routes/admin.js:29-32 | Pending, confirmed and cancelled counts add up to the total. |
| Admin.NoConfirmedNoRevenue | server/routes/admin.js:30-36 | Revenue is 0 when no booking is confirmed. |
| Admin.Revenue | server/routes/admin.js:30 | No contract of its own: `Admin.NoConfirmedNoRevenue`, `Admin.RevenueOfConfirmedOnly` and `Admin.RevenueAfterUpdate` state that it sums the prices of the confirmed bookings only, with 0 for none. |
| Admin.RevenueOfConfirmedOnly | server/routes/admin.js:30 | Two tables that agree wherever either holds a confirmed booking have the same revenue: only confirmed bookings count. |
| Admin.StatsAfterCreate | server/routes/admin.js:29-38 | After a booking is created, the total and the confirmed count each grow by 1, revenue grows by its price, and pending is unchanged. |
| Admin.WithStatusAbsent | server/routes/admin.js:29-38 | A status update of an id no booking has changes nothing. |
| Admin.RevenueAfterUpdate | server/routes/admin.js:30 | With unique ids, a status update replaces the updated booking's share of the revenue by its share under the new status. |
| Admin.CountAfterUpdate | server/routes/admin.js:31-32 | With unique ids, a status update moves the updated booking from its old status's count to its new status's count. |
| Admin.CancelConfirmedTotals | server/routes/admin.js:30-32 | Cancelling a confirmed booking removes its price from revenue and one from the confirmed count, and leaves the pending count unchanged. |
| Admin.CancelConfirmedStats | server/routes/admin.js:29-38 | The dashboard after such a cancellation has the same total and pending count, one fewer confirmed, and the price removed from revenue. |
| Admin.AllNewestFirst | server/routes/admin.js:49-57 | Every booking is listed, newest first. |
| Admin.ListAll | server/routes/admin.js:47-64 | One view per booking of the system-wide listing, each with exactly its seats. |
| Auth.WithProfile | server/routes/auth.js:87-90 | Only rows with that id change, and only in name, email and avatar. |
| Auth.EmailTakenByOther | server/routes/auth.js:82-85 | No contract of its own: `Auth.UserTable.UpdateProfile` answers 400 exactly when it holds, and `Auth.WithProfileKeepsUniqueEmails` shows that an update it lets through keeps emails unique. |
| Auth.AvatarOrNull | server/routes/auth.js:24 | An absent or empty avatar is stored as `NULL`; any other is stored unchanged. |
| Auth.FindAfterRegister | server/routes/auth.js:11-25 | A user registered under a fresh email is what a later lookup of that email finds. |
| Auth.FindByEmailUnique | server/routes/auth.js:38-42 | With unique emails, a lookup by a user's email finds that user. |
| Auth.WithProfileKeepsUniqueEmails | server/routes/auth.js:82-90 | An update that passed the email-in-use check keeps emails unique. |
| Auth.UserTable.constructor | server/routes/auth.js:22-25 | An empty users table with the counter at 1 and the given role default. |
| Auth.UserTable.Register | server/routes/auth.js:7-33 | 400 with no insert exactly when the email is taken. Otherwise one user is appended with the fresh id: the hash rather than the password, the role default, and the avatar or `NULL`. The table keeps unique emails. |
| Auth.UserTable.Login | server/routes/auth.js:35-62 | An unknown email and a wrong password fail alike. Otherwise the token payload is the user's id and role. |
| Auth.UserTable.UpdateProfile | server/routes/auth.js:69-101 | A falsy header is 401. A token that does not verify is 401. Another user's email is 400. Otherwise only the caller's name, email and avatar change, and the row is read back. The failure cases change nothing, and email uniqueness is kept. |
| Reviews.AuthenticateToken | server/routes/reviews.js:5-17 | A missing bearer part is 401; a bearer that does not decode is 403; otherwise the request passes with the decoded claims. |
| Reviews.HasAllFields | server/routes/reviews.js:57-59 | True exactly when `movie_id`, `rating` and `comment` are all truthy. |
| Reviews.MayDelete | server/routes/reviews.js:91-93 | No contract of its own: `Reviews.ReviewTable.Delete` removes the review exactly when the caller is its author or has role `admin`, and answers 403 otherwise. |
| Reviews.ZeroRatingRefused | server/routes/reviews.js:57 | Rating 0 counts as missing. |
| Reviews.AllNewestFirst | server/routes/reviews.js:20-30 | Every review is listed, newest first. |
| Reviews.OfMovie | server/routes/reviews.js:43 | Exactly the reviews of that movie. |
| Reviews.MovieNewestFirst | server/routes/reviews.js:37-47 | Exactly the reviews of that movie; its order is stated by `Reviews.MovieListingNewestFirst`. |
| Reviews.MovieListingNewestFirst | server/routes/reviews.js:43-44 | The per-movie listing is newest first. |
| Reviews.ReviewTable.constructor | server/routes/reviews.js:62-65 | An empty reviews table with the counter at 1. |
| Reviews.ReviewTable.Post | server/routes/reviews.js:54-81 | Token failures give 401/403 and missing fields give 400, neither inserting. Otherwise one review is inserted carrying the authenticated user's id and the given fields. |
| Reviews.ReviewTable.Delete | server/routes/reviews.js:83-101 | Token failures give 401/403. A missing id is 404. A caller who is neither the author nor an admin gets 403. In each of these cases nothing changes. Otherwise exactly the reviews with that id are removed, in order. |
| Reviews.DeleteKeepsShape | server/routes/reviews.js:95 | Deleting keeps ids increasing and creation order. |
| Reviews.DeleteRemovesExactly | server/routes/reviews.js:95 | A review survives deletion exactly when it was present and has another id. |
| SeatGrid.RowLabel | client/src/components/SeatGrid.jsx:31-43 | Row r below 26 gets the one-letter label `"ABC…Z"[r]`; later rows have no label. |
| SeatGrid.RowLabelsDistinct | client/src/components/SeatGrid.jsx:31-43 | Distinct labelled rows get distinct labels. |
| SeatGrid.IsBooked | client/src/components/SeatGrid.jsx:51-54 | True exactly when some entry matches both row and number, under either field naming. |
| SeatGrid.ServerEntryBooks | client/src/components/SeatGrid.jsx:51-54 | An entry in the server's `seat_row`/`seat_number` form books its seat. |
| SeatGrid.UnlabelledRowsMatchServerEntries | client/src/components/SeatGrid.jsx:51-54 | A row past Z, whose label is `undefined`, matches any entry missing the row field. |
| SeatGrid.IsSelected | client/src/components/SeatGrid.jsx:55 | True exactly when that row and number is in the selection. |
| SeatGrid.StatusOf | client/src/components/SeatGrid.jsx:64 | Booked takes precedence over selected, and selected over available. |
| SeatGrid.ColumnsShape | client/src/components/SeatGrid.jsx:48-60 | The cells of columns 0 to c-1: seats numbered in order, with one aisle before column floor(cols/2). |
| SeatGrid.RowLayout | client/src/components/SeatGrid.jsx:48-60 | With no columns a row is empty. Otherwise it has cols+1 cells, the single aisle at index floor(cols/2), and seats 1..cols in order around it. |
| SeatGrid.Grid | client/src/components/SeatGrid.jsx:42-48 | One row of cells per row index. |
| SeatGrid.Click | client/src/components/SeatGrid.jsx:17-18 | A click selects exactly when the seat is not booked. |
| SeatGrid.Display | client/src/components/SeatGrid.jsx:25 | A booked seat shows `×`; any other shows its number in plain decimal digits (no leading zero), which parse back to the number. |
| MovieDetails.Toggle | client/src/pages/MovieDetails.jsx:69-78 | An absent seat is appended. A present seat is removed in every copy; every other seat keeps its number of copies, and the rest keep their order. |
| MovieDetails.ToggleTwice | client/src/pages/MovieDetails.jsx:69-78 | Toggling an absent seat twice restores the selection. |
| MovieDetails.ToggleNoRepeats | client/src/pages/MovieDetails.jsx:69-78 | Toggling never introduces duplicates. |
| MovieDetails.DropOnce | client/src/pages/MovieDetails.jsx:73 | Removing a present seat from a duplicate-free selection shortens it by one. |
| MovieDetails.ToggleMovesTotal | client/src/pages/MovieDetails.jsx:101 | Toggling moves the total price `price × seats` up or down by one price. |
| MovieDetails.TotalPrice | client/src/pages/MovieDetails.jsx:101 | No contract of its own: `MovieDetails.ToggleMovesTotal` states how a toggle moves it, and `MovieDetails.BookingPage.HandleBooking` submits it as `total_price`. |
| MovieDetails.BookingPage.constructor | client/src/pages/MovieDetails.jsx:11-16 | No schedule, no booked or selected seats, and nothing sent. |
| MovieDetails.BookingPage.ToggleSeat | client/src/pages/MovieDetails.jsx:69-78 | The selection becomes its toggle. |
| MovieDetails.BookingPage.SeatsArrived | client/src/pages/MovieDetails.jsx:41-43 | The booked seats are replaced and the selection is cleared. |
| MovieDetails.BookingPage.HandleBooking | client/src/pages/MovieDetails.jsx:80-102 | With no token the selection is saved and nothing is sent. With no schedule or an empty selection nothing happens. Otherwise one request is sent with the schedule's id, the seats and price × count. |
| MovieDetails.BookingPage.RestorePendingBooking | client/src/pages/MovieDetails.jsx:53-63 | A saved booking for this movie restores schedule and seats. Any other leaves them. The saved booking is always removed. |
| ReviewForm.Reduce | client/src/components/ReviewForm.jsx:5-14 | `SET_FIELD` changes only the named field. `RESET` gives the initial state. Any other action leaves the state unchanged. |
| ReviewForm.SetFieldsCommute | client/src/components/ReviewForm.jsx:7-8 | Updates of two different fields commute. |
| ReviewForm.Validate | client/src/components/ReviewForm.jsx:41-43 | The first failing check in order (movie, blank comment after trim, length under 5) gives its message. The empty message means the form is posted. |
| ReviewForm.BlankCommentRefused | client/src/components/ReviewForm.jsx:42 | An all-space comment is refused as blank. |
| ReviewForm.PaddedShortCommentAccepted | client/src/components/ReviewForm.jsx:42-43 | The length check counts untrimmed characters, so `"  ok "` passes. |
| ReviewForm.Submit | client/src/components/ReviewForm.jsx:38-57 | A valid form is posted, and reset when the server accepts it. A refused post keeps the form and shows a non-empty message. An invalid form is not posted. |
| ReviewForm.AcceptedPostResets | client/src/components/ReviewForm.jsx:50-51 | After an accepted post the form equals the initial state. |
| ReviewForm.Stars | client/src/components/ReviewForm.jsx:91-100 | Star k is filled exactly when rating ≥ k. |
| ReviewForm.StarsFillPrefix | client/src/components/ReviewForm.jsx:91-100 | Filled stars form a prefix. |
| ReviewsPage.Added | client/src/pages/Reviews.jsx:39-41 | The new review goes in front and the rest is unchanged. |
| ReviewsPage.Deleted | client/src/pages/Reviews.jsx:47 | The reviews with that id are removed; every other review keeps its number of copies and its order. |
| ReviewsPage.DeleteUndoesAdd | client/src/pages/Reviews.jsx:39-47 | Deleting a just-added review with a fresh id gives the old list. |
| ReviewsPage.Filtered | client/src/pages/Reviews.jsx:53-63 | An order-preserving sublist; a review is kept exactly when it matches both the search and the movie selection. |
| ReviewsPage.EmptySearchKeepsAll | client/src/pages/Reviews.jsx:55-59 | An empty search with `all` keeps every review. |
| ReviewsPage.SelectionByDecimalId | client/src/pages/Reviews.jsx:59 | Selecting a movie's decimal id keeps exactly that movie's reviews. |
| Dashboard.Filtered | client/src/pages/AdminDashboard.jsx:43-47 | An order-preserving sublist; a booking is kept exactly when the query matches user name, movie title or decimal id. |
| Dashboard.EmptyQueryKeepsAll | client/src/pages/AdminDashboard.jsx:43-47 | An empty query keeps every booking. |
| Dashboard.IdSearchFinds | client/src/pages/AdminDashboard.jsx:46 | Searching a booking's decimal id keeps it. |
| Dashboard.DisplayId | client/src/pages/AdminDashboard.jsx:137 | At least 5 characters. Ids of five or more digits are unchanged. The digits denote the id. |
| Dashboard.ZerosKeepValue | client/src/pages/AdminDashboard.jsx:137 | Leading zeros do not change a decimal value. |
| Dashboard.AllZerosValue | client/src/pages/AdminDashboard.jsx:137 | A string of zeros denotes 0. |
| Dashboard.DisplayIdExample | client/src/pages/AdminDashboard.jsx:137 | Booking 42 shows as `00042`. |
| Dashboard.BadgeOf | client/src/pages/AdminDashboard.jsx:171-173 | Confirmed is green; pending is yellow; anything else is red. |
| Home.GenreText | client/src/pages/Home.jsx:29 | A missing genre reads as the empty string. |
| Home.SearchQuery | client/src/pages/Home.jsx:11 | The search parameter when present, and `''` when absent. |
| Home.Filtered | client/src/pages/Home.jsx:27-30 | An order-preserving sublist; a movie is kept exactly when the search is a case-insensitive substring of its title or genre. |
| Home.NoSearchKeepsAll | client/src/pages/Home.jsx:27-30 | No search keeps every movie in order. |
| Home.MissingGenreSearchesTitle | client/src/pages/Home.jsx:29 | A movie with no genre is kept exactly when its title matches. |
| Home.GenreBadge | client/src/pages/Home.jsx:100 | The text before the first comma of the genre when that text is not empty, and `Movie` exactly when it is empty; the badge never holds a comma. |
| Home.GenreBadgeFirst | client/src/pages/Home.jsx:100 | A non-empty first genre names the badge. |
| Home.GenreBadgeFallback | client/src/pages/Home.jsx:100 | A genre starting with a comma, or a missing genre, gives `Movie`. |
| Home.FoundLabel | client/src/pages/Home.jsx:48 | Singular exactly when the count is 1. |
| Profile.FirstChars | client/src/pages/Profile.jsx:49 | Exactly the first character of each non-empty piece, in order; empty pieces contribute nothing. |
| Profile.Initials | client/src/pages/Profile.jsx:47-50 | `U` for a missing or empty name; otherwise, position by position, the upper-cased first characters of the first two (or fewer) non-empty space-separated words. |
| Profile.WordsInitials | client/src/pages/Profile.jsx:47-50 | A name of one or more words separated by single spaces gives, position by position, the upper-cased first characters of its first two words. |
| Profile.TwoWordInitials | client/src/pages/Profile.jsx:49 | Two words give their two uppercased initials. |
| Profile.DoubleSpaceInitials | client/src/pages/Profile.jsx:49 | A doubled space contributes nothing. |
| Profile.BlankNameHasNoInitials | client/src/pages/Profile.jsx:48-49 | A name of one space is truthy and gives the empty string, not `U`. |
| Profile.HandleChange | client/src/pages/Profile.jsx:27-29 | Only the named field changes. |
| Profile.SelectAvatar | client/src/pages/Profile.jsx:58-60 | Only the avatar changes. |
| Profile.SelectAvatarIsChange | client/src/pages/Profile.jsx:58-60 | Selecting an avatar equals a change of the avatar field. |
| Setup.TrimAll | server/setup.js:27 | Each piece trimmed, in order. |
| Setup.Commands | server/setup.js:25-28 | Non-empty commands with no `;` and no surrounding whitespace; an order-preserving sublist of the trimmed pieces that contains every piece that is not blank. |
| Setup.TrimIsSlice | server/setup.js:27 | Every character of a trimmed piece comes from the piece. |
| Setup.CommandsOfStatements | server/setup.js:25-28 | Non-blank statements free of `;`, joined by `;`, with an optional last `;` followed by whitespace only, give back exactly the trimmed statements, in order. |
| Setup.JoinSnoc | server/setup.js:26 | Joining with one more piece appends `;` and that piece. |
| Setup.Connection.constructor | server/setup.js:11-15 | A connection with an empty query log. |
| Setup.Connection.Query | server/setup.js:31 | The command is appended to the log. |
| Setup.RunAll | server/setup.js:30-32 | The commands run in order, each exactly once. |
| Setup.RunSchema | server/setup.js:25-32 | The schema's commands run in file order. |
| Text.Contains | client/src/pages/Reviews.jsx:55 | True exactly when the text occurs at some offset. |
| Text.ContainsIgnoreCaseEmpty | client/src/pages/Reviews.jsx:55 | An empty query matches everything. |
| Text.Split | server/setup.js:26 | At least one piece; no piece holds the separator; joining gives the input back. |
| Text.SplitJoin | server/routes/payment.js:21 | Splitting a join of separator-free pieces gives the pieces. |
| Text.Field | server/routes/payment.js:21 | Present exactly when the split has that many pieces, and then it is piece k of the split, holding no separator. |
| Text.Trim | server/setup.js:27 | A slice of the input with only whitespace removed on both sides; empty exactly when the input is all whitespace. |
| Text.NatToString | client/src/pages/AdminDashboard.jsx:46 | Digits with no leading zero, denoting the number. |
| Text.ParseIntNatToString | client/src/pages/Reviews.jsx:59 | Parsing a rendered number gives the number. |
| Text.ParseIntDigits | client/src/pages/Reviews.jsx:59 | A non-empty string of decimal digits parses to its decimal value. |
| Text.ParseInt | client/src/pages/Reviews.jsx:59 | No contract of its own: `Text.ParseIntDigits` and `Text.ParseIntNatToString` state that decimal digits parse to their value. |
| Text.PadStart | client/src/pages/AdminDashboard.jsx:137 | The input preceded by fill characters up to the width; unchanged when already at least that long. |
| Seqs.Reverse | server/routes/bookings.js:89 | Same length and elements, in reverse order. |
| Seqs.Filter | client/src/pages/Reviews.jsx:47 | Kept elements only, and every kept element. |
| Seqs.FilterCounts | client/src/pages/Reviews.jsx:47 | A filter keeps every copy of an accepted element and none of a rejected one. |
| Seqs.FindFirst | server/routes/auth.js:11 | The first element the condition accepts: nothing is found exactly when none is accepted, and whatever is found is accepted and preceded only by rejected elements. The email lookup of server/routes/auth.js:11, the id lookup of server/routes/auth.js:92 and the review lookup of server/routes/reviews.js:85 are this search. |
| Seqs.FilterSublist | client/src/pages/Reviews.jsx:54 | A filter is an order-preserving sublist. |
| Seqs.FilterKeepsAll | client/src/pages/Reviews.jsx:54 | A filter keeping everything is the identity. |

## Left out

- Bookings.Ledger.Create: a storage error other than the empty seat insert is modelled by the `fault` flag, not by its cause. It requires the clock not to run backwards, and ties in `created_at` are ordered by insertion.
- Bookings.Ledger.Create: the transaction is modelled sequentially. With no locking shown, two concurrent creates could both pass the conflict check; this model does not claim safety under concurrency.
- Bookings.Ledger.Cancel, Bookings.Ledger.ListForUser: storage errors answering 500 are not modelled.
- Bookings.Ledger.Create: the request body's JSON types are reduced to `Seat(row: string, number: int)`. In the source the conflict test at server/routes/bookings.js:43 is a strict `===`. A seat sent as `{row: "A", number: "3"}` therefore never equals the stored number 3. It passes the test, and the INSERT at lines 60-63 stores 3, so the seat ends up held by two live bookings. `Bookings.CreatePreservesNoDoubleBooking` holds only for well-typed requests.
- Bookings.Ledger.Create: a missing or non-array `seats` throws at server/routes/bookings.js:42 and answers 500 before any INSERT. The typed request cannot express this.
- Bookings.Ledger.Create: the `fault` flag always consumes an auto-increment id, as a failure after the bookings INSERT does. A failure of the booked-seat SELECT at server/routes/bookings.js:33 consumes none; the model does not say where the fault happens.
- Auth.UserTable.Register, Auth.UserTable.UpdateProfile: the email is a string. An `email` missing from the body is bound as `NULL` in the lookups at server/routes/auth.js:11 and 82, and this is not modelled.
- ReviewForm.Validate: comment lengths are counted in characters (code points). JavaScript's `length` at client/src/components/ReviewForm.jsx:43 counts UTF-16 code units. A comment of three astral characters such as "😀😀😀" has length 6 in the source and is posted, while the model refuses it as too short.
- Profile.FirstChars: a word's first character is a whole code point. The source's `n[0]` at client/src/pages/Profile.jsx:49 is the first UTF-16 code unit, a lone surrogate for a word that starts with an astral character.
- Payment.HandleNotification: storage errors answering 500 are not modelled. A rejected UPDATE at server/routes/payment.js:25-34 is caught at lines 38-40 and answers 500, as does a non-string `order_id`, which throws at line 21. In the model, 500 comes only from a missing `order_id`.
- Bookings.Ledger.Create: duplicate seats inside one request are not rejected. They become two seat rows of the same booking, which the invariant allows, since it concerns distinct bookings.
- Payment: the Midtrans SDK call that verifies the notification is left out. The notification is an already-parsed record.
- Payment: the Snap transaction, its token and payment retries are left out. No shown code creates one, and the booking response carries only `bookingId`.
- Payment.HandleNotification: an `order_id` field that is not all digits matches no booking. MySQL's lenient coercion of strings such as `42abc` to numbers is not modelled.
- JWT signing and verification, and bcrypt: these are opaque function parameters.
- Auth.UserTable.Register, Auth.UserTable.Login, Reviews.ReviewTable.Post, Admin.Stats, Admin.ListAll: storage errors answering 500 are not modelled.
- Auth.UserTable.UpdateProfile: a storage error inside the `try` block also answers 401 in the source. Only token failures are modelled as 401.
- Auth.FindByEmail: emails are compared exactly. The column's collation is a schema matter, and the schema file is not part of this model.
- Auth.UserTable.constructor: the default of `users.role` comes from the schema, so it is a constructor argument.
- Reviews.ReviewTable.Post: the request body's JSON types are reduced to optional integers and strings. MySQL's coercion, and its foreign-key check on `movie_id`, are not modelled.
- Catalogue joins (movie titles, theatre names, user names and avatars in listings) are left out. They are assumed present.
- Money is an integer, whereas the source uses MySQL `DECIMAL` and JavaScript `Number`. Revenue's `SUM` is exact here.
- Text.ParseInt: decimal only, with no `0x` prefix and no other radix. Case mapping covers ASCII letters only.
- MovieDetails.BookingPage: the `useEffect` ordering is modelled as separate steps. The `!loading && movie` guard around the restore is left out. So is the fact that a restored schedule triggers a seat fetch whose arrival clears the restored selection; that step is `SeatsArrived`.
- MovieDetails.BookingPage.HandleBooking: `alert`, `navigate`, the payment popup and error handling are left out.
- ReviewForm.Reduce: `SET_FIELD` is limited to the three form fields. An arbitrary field name would add a key.
- Rendering, navigation, `localStorage` beyond the saved booking, and locale, float and date formatting are left out.
- Setup: reading the schema file, the database connection and the seed data are left out. The schema text is a parameter.
- Reviews.ReviewTable.Post: it requires the clock not to run behind any stored `created_at`, and ties in `created_at` are ordered by insertion. The INSERT at server/routes/reviews.js:62-65 has no such guard. `Reviews.AllNewestFirst` and `Reviews.MovieListingNewestFirst` rest on this assumption.
- Reviews.ReviewTable.Delete, Reviews.AllNewestFirst, Reviews.MovieNewestFirst, Bookings.Ledger.ScheduleSeats: storage errors answering 500 (server/routes/reviews.js:31-34, 48-51 and 97-100; server/routes/bookings.js:138-141) are not modelled.
- Bookings.Ledger.Cancel: the `:id` path parameter is a natural number. In the source it is a string that MySQL coerces in the lookups at server/routes/bookings.js:108 and 120, so `5abc` selects booking 5; this coercion is not modelled.
- Reviews.ReviewTable.Delete: the `:id` path parameter is a natural number. In the source it is a string that MySQL coerces at server/routes/reviews.js:85 and 95, so `5abc` selects review 5; this coercion is not modelled.
- Payment.OrderBookingId: it has no contract of its own. Its behaviour is stated by `Payment.OrderIdRoundTrip`.
