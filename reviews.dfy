/**
 * The `/reviews` routes over the `reviews` table: the `authenticateToken`
 * middleware, the two listings, the insert with its required-field check
 * and the delete with its owner-or-admin rule.
 */
module Reviews {
  import opened Wrappers
  import opened Seqs
  import opened Tokens

  /** A row of the `reviews` table. */
  datatype Review = Review(id: nat, userId: nat, movieId: int, rating: int, comment: string, createdAt: int)

  /** The JSON body of POST `/`; a field the client left out is `None`. */
  datatype ReviewBody = ReviewBody(movieId: Option<int>, rating: Option<int>, comment: Option<string>)

  // ------------------------------------------------------ authenticateToken

  datatype TokenCheck = Passed(user: Claims) | Unauthorized | Forbidden {
    /** The HTTP status the middleware answers with when it stops the request. */
    function Code(): int requires !Passed? {
      if Unauthorized? then 401 else 403
    }
  }

  /**
   * `authenticateToken`: 401 when the header or its bearer token is
   * missing or empty, 403 when the token does not verify.
   */
  function AuthenticateToken(header: Option<string>, decode: string -> Option<Claims>): (r: TokenCheck)
    ensures r.Unauthorized? <==> Falsy(header) || Bearer(header.value).None?
    ensures r.Forbidden? <==> !Falsy(header) && Bearer(header.value).Some? && decode(Bearer(header.value).value).None?
    ensures r.Passed? ==> BearerClaims(header.value, decode) == Some(r.user)
  {
    if Falsy(header) then Unauthorized
    else match Bearer(header.value)
      case None => Unauthorized
      case Some(token) =>
        match decode(token)
        case None => Forbidden
        case Some(user) => Passed(user)
  }

  // ----------------------------------------------------------------- POST /

  /** JavaScript's `!x` for a number field: absent or 0. */
  predicate FalsyNumber(x: Option<int>) {
    x == None || x == Some(0)
  }

  /** JavaScript's `!x` for a string field: absent or empty. */
  predicate FalsyText(x: Option<string>) {
    x == None || x == Some("")
  }

  /**
   * The required-field check: all three fields must be truthy, so a rating
   * of 0 is refused as a missing one.
   */
  function HasAllFields(body: ReviewBody): (r: bool)
    ensures r <==> !FalsyNumber(body.movieId) && !FalsyNumber(body.rating) && !FalsyText(body.comment)
  {
    !(FalsyNumber(body.movieId) || FalsyNumber(body.rating) || FalsyText(body.comment))
  }

  lemma ZeroRatingRefused(movieId: int, comment: string)
    ensures !HasAllFields(ReviewBody(Some(movieId), Some(0), Some(comment)))
  {
  }

  // --------------------------------------------------------------- listings

  /** GET `/`: every review, newest first. */
  function AllNewestFirst(rs: seq<Review>): (r: seq<Review>)
    ensures |r| == |rs|
    ensures forall k :: 0 <= k < |rs| ==> rs[k] in r
    ensures CreatedInOrder(rs) ==> forall i, j :: 0 <= i < j < |r| ==> r[i].createdAt >= r[j].createdAt
  {
    Reverse(rs)
  }

  function OfMovie(rs: seq<Review>, movieId: int): (r: seq<Review>)
    ensures forall k :: 0 <= k < |r| ==> r[k] in rs && r[k].movieId == movieId
    ensures forall k :: 0 <= k < |rs| && rs[k].movieId == movieId ==> rs[k] in r
  {
    Filter((x: Review) => x.movieId == movieId, rs)
  }

  /** GET `/movie/:movieId`: that movie's reviews and no other, newest first. */
  function MovieNewestFirst(rs: seq<Review>, movieId: int): (r: seq<Review>)
    ensures forall k :: 0 <= k < |r| ==> r[k] in rs && r[k].movieId == movieId
    ensures forall k :: 0 <= k < |rs| && rs[k].movieId == movieId ==> rs[k] in r
  {
    Reverse(OfMovie(rs, movieId))
  }

  predicate CreatedInOrder(rs: seq<Review>) {
    forall i, j :: 0 <= i < j < |rs| ==> rs[i].createdAt <= rs[j].createdAt
  }

  /** Filtering keeps creation order, so the per-movie listing is newest first too. */
  lemma MovieListingNewestFirst(rs: seq<Review>, movieId: int)
    requires CreatedInOrder(rs)
    ensures var r := MovieNewestFirst(rs, movieId);
            forall i, j :: 0 <= i < j < |r| ==> r[i].createdAt >= r[j].createdAt
  {
    var o := OfMovie(rs, movieId);
    FilterSublist((x: Review) => x.movieId == movieId, rs);
    var idx :| PicksFrom(o, rs, idx);
    assert CreatedInOrder(o) by {
      forall i, j | 0 <= i < j < |o| ensures o[i].createdAt <= o[j].createdAt {
        assert o[i] == rs[idx[i]] && o[j] == rs[idx[j]];
      }
    }
  }

  /** The review with that id (`SELECT * FROM reviews WHERE id = ?`). */
  function FindReview(rs: seq<Review>, id: nat): Option<Review> {
    FindFirst(rs, (x: Review) => x.id == id)
  }

  /** Whether a caller may delete a review: its author or an admin. */
  predicate MayDelete(review: Review, caller: Claims) {
    review.userId == caller.id || caller.role == Some("admin")
  }

  // ---------------------------------------------------------------- results

  datatype PostResult = Posted(review: Review) | PostDenied(check: TokenCheck) | FieldsMissing {
    function Code(): int requires !(PostDenied? && check.Passed?) {
      if Posted? then 201 else if FieldsMissing? then 400 else check.Code()
    }
  }

  datatype DeleteResult = DeleteDone | DeleteDenied(check: TokenCheck) | ReviewNotFound | NotAuthor {
    function Code(): int requires !(DeleteDenied? && check.Passed?) {
      if DeleteDone? then 200 else if ReviewNotFound? then 404 else if NotAuthor? then 403 else check.Code()
    }
  }

  /** The `reviews` table and the auto-increment counter of `reviews.id`. */
  class ReviewTable {
    var reviews: seq<Review>
    var nextId: nat

    ghost predicate Valid()
      reads this
    {
      && (forall i, j :: 0 <= i < j < |reviews| ==> reviews[i].id < reviews[j].id)
      && (forall i :: 0 <= i < |reviews| ==> reviews[i].id < nextId)
      && CreatedInOrder(reviews)
    }

    constructor ()
      ensures Valid()
      ensures reviews == [] && nextId == 1
    {
      reviews, nextId := [], 1;
    }

    /**
     * POST `/`: after the token check, 400 with no insert unless all three
     * fields are truthy; otherwise one new review carrying the caller's id.
     * `now` is the database clock, which does not run backwards.
     */
    method Post(header: Option<string>, decode: string -> Option<Claims>, body: ReviewBody, now: int)
      returns (res: PostResult)
      requires Valid()
      requires forall i :: 0 <= i < |reviews| ==> reviews[i].createdAt <= now
      modifies this
      ensures Valid()
      ensures res.PostDenied? <==> !AuthenticateToken(header, decode).Passed?
      ensures res.PostDenied? ==> res.check == AuthenticateToken(header, decode)
      ensures res.FieldsMissing? <==> AuthenticateToken(header, decode).Passed? && !HasAllFields(body)
      ensures res.Posted? ==>
                && res.review == Review(old(nextId), AuthenticateToken(header, decode).user.id,
                                        body.movieId.value, body.rating.value, body.comment.value, now)
                && reviews == old(reviews) + [res.review] && nextId == old(nextId) + 1
      ensures !res.Posted? ==> reviews == old(reviews) && nextId == old(nextId)
    {
      var auth := AuthenticateToken(header, decode);
      if !auth.Passed? {
        return PostDenied(auth);
      }
      if !HasAllFields(body) {
        return FieldsMissing;
      }
      var review := Review(nextId, auth.user.id, body.movieId.value, body.rating.value, body.comment.value, now);
      reviews := reviews + [review];
      nextId := nextId + 1;
      return Posted(review);
    }

    /**
     * DELETE `/:id`: after the token check, 404 when no review has the id,
     * 403 unless the caller wrote it or is an admin; otherwise the review
     * is deleted and nothing else.
     */
    method Delete(header: Option<string>, decode: string -> Option<Claims>, id: nat) returns (res: DeleteResult)
      requires Valid()
      modifies this`reviews
      ensures Valid()
      ensures res.DeleteDenied? <==> !AuthenticateToken(header, decode).Passed?
      ensures res.DeleteDenied? ==> res.check == AuthenticateToken(header, decode)
      ensures res.ReviewNotFound? <==> AuthenticateToken(header, decode).Passed? && FindReview(old(reviews), id).None?
      ensures res.NotAuthor? <==>
                AuthenticateToken(header, decode).Passed? && FindReview(old(reviews), id).Some?
                && !MayDelete(FindReview(old(reviews), id).value, AuthenticateToken(header, decode).user)
      ensures res.DeleteDone? ==> reviews == Filter((x: Review) => x.id != id, old(reviews))
      ensures !res.DeleteDone? ==> reviews == old(reviews)
    {
      var auth := AuthenticateToken(header, decode);
      if !auth.Passed? {
        return DeleteDenied(auth);
      }
      var found := FindReview(reviews, id);
      if found.None? {
        return ReviewNotFound;
      }
      if !MayDelete(found.value, auth.user) {
        return NotAuthor;
      }
      DeleteKeepsShape(reviews, nextId, id);
      reviews := Filter((x: Review) => x.id != id, reviews);
      return DeleteDone;
    }
  }

  /** Deleting rows keeps the ids increasing and below the counter, and the creation order. */
  lemma DeleteKeepsShape(rs: seq<Review>, nextId: nat, id: nat)
    requires forall i, j :: 0 <= i < j < |rs| ==> rs[i].id < rs[j].id
    requires forall i :: 0 <= i < |rs| ==> rs[i].id < nextId
    requires CreatedInOrder(rs)
    ensures var kept := Filter((x: Review) => x.id != id, rs);
            && (forall i, j :: 0 <= i < j < |kept| ==> kept[i].id < kept[j].id)
            && (forall i :: 0 <= i < |kept| ==> kept[i].id < nextId)
            && CreatedInOrder(kept)
  {
    var kept := Filter((x: Review) => x.id != id, rs);
    FilterSublist((x: Review) => x.id != id, rs);
    var idx :| PicksFrom(kept, rs, idx);
    forall i, j | 0 <= i < j < |kept| ensures kept[i].id < kept[j].id && kept[i].createdAt <= kept[j].createdAt {
      assert kept[i] == rs[idx[i]] && kept[j] == rs[idx[j]];
    }
  }

  /** Deleting removes exactly the rows with that id; every other row stays. */
  lemma DeleteRemovesExactly(rs: seq<Review>, id: nat, x: Review)
    ensures x in Filter((y: Review) => y.id != id, rs) <==> x in rs && x.id != id
  {
  }
}
