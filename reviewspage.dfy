/**
 * The reviews page's list: a posted review goes to the front, a deleted one
 * leaves the list, and the search box and the movie selector filter it.
 */
module ReviewsPage {
  import opened Wrappers
  import opened Text
  import opened Seqs

  /** A review as `/reviews` lists it, with the joined `user_name` and `movie_title`. */
  datatype ReviewItem = ReviewItem(id: nat, movieId: int, comment: string, userName: string, movieTitle: Option<string>)

  /** `handleReviewAdded`: the new review first, then the list as it was. */
  function Added(reviews: seq<ReviewItem>, review: ReviewItem): (r: seq<ReviewItem>)
    ensures |r| == |reviews| + 1 && r[0] == review && r[1..] == reviews
  {
    [review] + reviews
  }

  /** The list update of `handleDelete`: `reviews.filter(r => r.id !== id)`. */
  function Deleted(reviews: seq<ReviewItem>, id: nat): (r: seq<ReviewItem>)
    ensures forall k :: 0 <= k < |r| ==> r[k].id != id
    ensures forall k :: 0 <= k < |reviews| && reviews[k].id != id ==> reviews[k] in r
    ensures Sublist(r, reviews)
    ensures forall x :: multiset(r)[x] == if x.id != id then multiset(reviews)[x] else 0
  {
    FilterSublist((x: ReviewItem) => x.id != id, reviews);
    forall x ensures multiset(Filter((x: ReviewItem) => x.id != id, reviews))[x] == if x.id != id then multiset(reviews)[x] else 0 {
      FilterCounts((x: ReviewItem) => x.id != id, reviews, x);
    }
    Filter((x: ReviewItem) => x.id != id, reviews)
  }

  /** Deleting a review just added gives the list back when no other review had its id. */
  lemma DeleteUndoesAdd(reviews: seq<ReviewItem>, review: ReviewItem)
    requires forall k :: 0 <= k < |reviews| ==> reviews[k].id != review.id
    ensures Deleted(Added(reviews, review), review.id) == reviews
  {
    FilterKeepsAll((x: ReviewItem) => x.id != review.id, reviews);
    assert Added(reviews, review)[1..] == reviews;
  }

  /**
   * The search part of the filter: the lower-cased search occurs in the
   * comment, in the author's name, or in the movie title when that is
   * present and not empty.
   */
  predicate MatchesSearch(review: ReviewItem, search: string) {
    || ContainsIgnoreCase(review.comment, search)
    || ContainsIgnoreCase(review.userName, search)
    || (review.movieTitle.Some? && review.movieTitle.value != "" && ContainsIgnoreCase(review.movieTitle.value, search))
  }

  /** The movie part: `'all'`, or the review's movie is the selected id; a selection that parses to `NaN` matches nothing. */
  predicate MatchesMovie(review: ReviewItem, selection: string) {
    selection == "all" || ParseInt(selection) == Some(review.movieId)
  }

  /** `filteredReviews`. */
  function Filtered(reviews: seq<ReviewItem>, search: string, selection: string): (r: seq<ReviewItem>)
    ensures forall k :: 0 <= k < |r| ==> r[k] in reviews && MatchesSearch(r[k], search) && MatchesMovie(r[k], selection)
    ensures forall k :: 0 <= k < |reviews| && MatchesSearch(reviews[k], search) && MatchesMovie(reviews[k], selection) ==>
              reviews[k] in r
    ensures Sublist(r, reviews)
  {
    FilterSublist((x: ReviewItem) => MatchesSearch(x, search) && MatchesMovie(x, selection), reviews);
    Filter((x: ReviewItem) => MatchesSearch(x, search) && MatchesMovie(x, selection), reviews)
  }

  /** An empty search with `'all'` selected shows every review, in order. */
  lemma EmptySearchKeepsAll(reviews: seq<ReviewItem>)
    ensures Filtered(reviews, "", "all") == reviews
  {
    forall k | 0 <= k < |reviews| ensures MatchesSearch(reviews[k], "") {
      ContainsIgnoreCaseEmpty(reviews[k].comment);
    }
    FilterKeepsAll((x: ReviewItem) => MatchesSearch(x, "") && MatchesMovie(x, "all"), reviews);
  }

  /** Selecting a movie by its decimal id keeps exactly that movie's reviews. */
  lemma SelectionByDecimalId(review: ReviewItem, n: nat)
    ensures MatchesMovie(review, NatToString(n)) <==> review.movieId == n
  {
    ParseIntNatToString(n);
  }
}
