/**
 * The review form: its reducer, the validation chain run before posting,
 * the star rating display, and what a submission does to the form.
 */
module ReviewForm {
  import opened Text

  /** The form state `{movie_id, rating, comment}`; `movie_id` is the `<select>`'s string value. */
  datatype FormState = FormState(movieId: string, rating: int, comment: string)

  const Initial: FormState := FormState("", 5, "")

  /** The three `SET_FIELD` dispatches the form makes, one per field. */
  datatype FieldUpdate = MovieId(id: string) | Rating(stars: int) | Comment(text: string)

  datatype FieldName = MovieIdField | RatingField | CommentField

  /** The `field` of a `SET_FIELD` action. */
  function Target(u: FieldUpdate): FieldName {
    match u
    case MovieId(_) => MovieIdField
    case Rating(_) => RatingField
    case Comment(_) => CommentField
  }

  datatype Action = SetField(update: FieldUpdate) | Reset | Other(kind: string)

  /** `formReducer`. */
  function Reduce(state: FormState, action: Action): (r: FormState)
    ensures action.SetField? && action.update.MovieId? ==>
              r.movieId == action.update.id && r.rating == state.rating && r.comment == state.comment
    ensures action.SetField? && action.update.Rating? ==>
              r.rating == action.update.stars && r.movieId == state.movieId && r.comment == state.comment
    ensures action.SetField? && action.update.Comment? ==>
              r.comment == action.update.text && r.movieId == state.movieId && r.rating == state.rating
    ensures action.Reset? ==> r == Initial
    ensures action.Other? ==> r == state
  {
    match action
    case SetField(MovieId(v)) => state.(movieId := v)
    case SetField(Rating(v)) => state.(rating := v)
    case SetField(Comment(v)) => state.(comment := v)
    case Reset => FormState("", 5, "")
    case Other(_) => state
  }

  /** Updates of two different fields commute. */
  lemma SetFieldsCommute(state: FormState, u: FieldUpdate, v: FieldUpdate)
    requires Target(u) != Target(v)
    ensures Reduce(Reduce(state, SetField(u)), SetField(v)) == Reduce(Reduce(state, SetField(v)), SetField(u))
  {
  }

  // ------------------------------------------------------------ validation

  const SelectMovie: string := "Please select a movie"
  const EnterComment: string := "Please enter a comment"
  const TooShort: string := "Comment is too short"

  /**
   * The checks of `handleSubmit`, in order: a movie is chosen, the comment
   * is not blank once trimmed, and the untrimmed comment has at least five
   * characters. The result is the message shown, or `""` when the form is
   * posted.
   */
  function Validate(state: FormState): (msg: string)
    ensures msg == SelectMovie <==> state.movieId == ""
    ensures msg == EnterComment <==> state.movieId != "" && Trim(state.comment) == ""
    ensures msg == TooShort <==> state.movieId != "" && Trim(state.comment) != "" && |state.comment| < 5
    ensures msg == "" <==> state.movieId != "" && Trim(state.comment) != "" && |state.comment| >= 5
  {
    if state.movieId == "" then SelectMovie
    else if Trim(state.comment) == "" then EnterComment
    else if |state.comment| < 5 then TooShort
    else ""
  }

  /** A comment of spaces only is reported as blank, however long it is. */
  lemma BlankCommentRefused(movieId: string)
    requires movieId != ""
    ensures Validate(FormState(movieId, 5, "      ")) == EnterComment
  {
    var c := "      ";
    assert forall i :: 0 <= i < |c| ==> IsSpace(c[i]);
  }

  /** The length check counts the surrounding spaces: two letters padded to five characters pass. */
  lemma PaddedShortCommentAccepted(movieId: string)
    requires movieId != ""
    ensures Validate(FormState(movieId, 5, "  ok ")) == ""
  {
    var c := "  ok ";
    assert !IsSpace(c[2]);
  }

  // ----------------------------------------------------------------- submit

  /** How the server answered the post; `message` is `err.response?.data?.message`. */
  datatype Response = Accepted | Rejected(message: string)

  /** The form after `handleSubmit`, the state that was posted (if any) and the error shown. */
  datatype Submission = Submission(form: FormState, posted: bool, error: string)

  /**
   * `handleSubmit`: a state that fails validation is not posted and shows
   * its message; a valid one is posted as is, after which the form is
   * reset when the server accepts it and kept with the server's message
   * (or a generic one) when it does not.
   */
  function Submit(state: FormState, response: Response): (r: Submission)
    ensures r.posted <==> Validate(state) == ""
    ensures !r.posted ==> r.form == state && r.error == Validate(state)
    ensures r.posted && response.Accepted? ==> r.form == Reduce(state, Reset) && r.error == ""
    ensures r.posted && response.Rejected? ==> r.form == state && r.error != ""
  {
    var msg := Validate(state);
    if msg != "" then Submission(state, false, msg)
    else match response
      case Accepted => Submission(Reduce(state, Reset), true, "")
      case Rejected(m) => Submission(state, true, if m == "" then "Failed to post review" else m)
  }

  /** After an accepted post the form is back to its initial state, so posting again is refused until a movie is chosen. */
  lemma AcceptedPostResets(state: FormState)
    requires Validate(state) == ""
    ensures Submit(state, Accepted).form == Initial
    ensures Validate(Submit(state, Accepted).form) == SelectMovie
  {
  }

  // ------------------------------------------------------------------ stars

  /** The five star buttons: star `i + 1` is filled when the rating is at least `i + 1`. */
  function Stars(rating: int): (r: seq<bool>)
    ensures |r| == 5
    ensures forall i :: 0 <= i < 5 ==> r[i] == (rating >= i + 1)
  {
    seq(5, i requires 0 <= i < 5 => rating >= i + 1)
  }

  /** A rating `n` in 0..5 fills exactly the first `n` stars. */
  lemma StarsFillPrefix(n: int)
    requires 0 <= n <= 5
    ensures Stars(n) == seq(n, _ => true) + seq(5 - n, _ => false)
  {
    var filled := seq(n, _ => true) + seq(5 - n, _ => false);
    assert forall i :: 0 <= i < 5 ==> filled[i] == (i < n);
  }
}
