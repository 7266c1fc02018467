/**
 * The home page's movie list: the search filter, the genre badge on each
 * card and the "Found N movies" line.
 */
module Home {
  import opened Wrappers
  import opened Text
  import opened Seqs

  /** A movie as `/movies` lists it; `genre` may be `NULL`. */
  datatype Movie = Movie(title: string, genre: Option<string>)

  /** `(movie.genre || '')`. */
  function GenreText(genre: Option<string>): (r: string)
    ensures genre.Some? ==> r == genre.value
    ensures genre.None? ==> r == ""
  {
    if genre.Some? then genre.value else ""
  }

  /** `searchParams.get('search') || ''`: the search parameter, `''` when absent. */
  function SearchQuery(param: Option<string>): (r: string)
    ensures param.Some? ==> r == param.value
    ensures param.None? ==> r == ""
  {
    GenreText(param)
  }

  /** The filter: the search occurs, ignoring case, in the title or in the genre. */
  predicate MatchesSearch(m: Movie, search: string) {
    ContainsIgnoreCase(m.title, search) || ContainsIgnoreCase(GenreText(m.genre), search)
  }

  /** `filteredMovies`. */
  function Filtered(movies: seq<Movie>, search: string): (r: seq<Movie>)
    ensures forall k :: 0 <= k < |r| ==> r[k] in movies && MatchesSearch(r[k], search)
    ensures forall k :: 0 <= k < |movies| && MatchesSearch(movies[k], search) ==> movies[k] in r
    ensures Sublist(r, movies)
  {
    FilterSublist((m: Movie) => MatchesSearch(m, search), movies);
    Filter((m: Movie) => MatchesSearch(m, search), movies)
  }

  /** Without a search parameter every movie is listed, in order. */
  lemma NoSearchKeepsAll(movies: seq<Movie>)
    ensures Filtered(movies, SearchQuery(None)) == movies
  {
    forall k | 0 <= k < |movies| ensures MatchesSearch(movies[k], "") {
      ContainsIgnoreCaseEmpty(movies[k].title);
    }
    FilterKeepsAll((m: Movie) => MatchesSearch(m, ""), movies);
  }

  /** A movie without a genre is found by its title only. */
  lemma MissingGenreSearchesTitle(title: string, search: string)
    requires search != ""
    ensures MatchesSearch(Movie(title, None), search) <==> ContainsIgnoreCase(title, search)
  {
    assert ToLower("") == "";
    var q := ToLower(search);
    assert !exists i :: OccursAt("", q, i);
  }

  /**
   * The card's badge: the genre text before its first comma, or `Movie`
   * when that text is empty.
   */
  function GenreBadge(genre: Option<string>): (r: string)
    ensures r == "Movie" || Split(GenreText(genre), ',')[0] == r
    ensures Split(GenreText(genre), ',')[0] != "" ==> r == Split(GenreText(genre), ',')[0]
    ensures Split(GenreText(genre), ',')[0] == "" ==> r == "Movie"
    ensures ',' !in r
  {
    var first := Split(GenreText(genre), ',')[0];
    if first == "" then "Movie" else first
  }

  /** A genre list shows its first genre: `Action,Drama` shows `Action`. */
  lemma GenreBadgeFirst(first: string, rest: string)
    requires first != "" && ',' !in first
    ensures GenreBadge(Some(first + "," + rest)) == first
  {
    assert first + "," + rest == first + [','] + rest;
    SplitPrefix(first, rest, ',');
  }

  /** A genre that starts with a comma, an empty genre and a missing one all show `Movie`. */
  lemma GenreBadgeFallback(rest: string)
    ensures GenreBadge(Some("," + rest)) == "Movie"
    ensures GenreBadge(Some("")) == "Movie"
    ensures GenreBadge(None) == "Movie"
  {
    assert "," + rest == "" + [','] + rest;
    SplitPrefix("", rest, ',');
  }

  /** `Found {n} {n === 1 ? 'movie' : 'movies'}`. */
  function FoundLabel(n: nat): (r: string)
    ensures r == "Found " + NatToString(n) + " movie" || r == "Found " + NatToString(n) + " movies"
    ensures r == "Found " + NatToString(n) + " movie" <==> n == 1
  {
    "Found " + NatToString(n) + (if n == 1 then " movie" else " movies")
  }
}
