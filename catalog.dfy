/** The movie catalog as the front end holds it, the curated genre list, and
    the genre chips derived from a catalog when it is loaded. */
module Catalog {
  import opened Seqs

  /** One catalog record. `rating` is in tenths of a point (8.3 is 83);
      `tags` is always present, since the filter dereferences it unguarded. */
  datatype Movie = Movie(
    id: int, title: string, year: string, rating: int,
    description: string, tags: seq<string>, poster: string)

  /** `popularGenres`: the curated genres that may be offered as chips. */
  const PopularGenres: seq<string> := [
    "Action", "Adventure", "Animation", "Comedy", "Crime", "Documentary", "Drama", "Family",
    "Fantasy", "Horror", "Mystery", "Romance", "Science Fiction", "Thriller", "War", "Western"]

  /** `g` is an exact tag of some movie of the catalog. */
  predicate HasTag(movies: seq<Movie>, g: string) {
    exists i :: 0 <= i < |movies| && g in movies[i].tags
  }

  /** The chips offered for a catalog: the curated genres, in curated order,
      that occur as an exact tag somewhere in it. */
  function AvailableGenres(movies: seq<Movie>): seq<string> {
    KeepTagged(PopularGenres, movies)
  }

  /** The genres of `genres` that are tags in `movies`, in order. */
  function KeepTagged(genres: seq<string>, movies: seq<Movie>): seq<string> {
    if genres == [] then []
    else (if HasTag(movies, genres[0]) then [genres[0]] else []) + KeepTagged(genres[1..], movies)
  }

  lemma {:induction false} KeepTaggedIsFilter(genres: seq<string>, movies: seq<Movie>)
    ensures KeepTagged(genres, movies) == Filter(genres, g => HasTag(movies, g))
  {
    if genres != [] {
      KeepTaggedIsFilter(genres[1..], movies);
    }
  }

  /** Keeping genres never adds any. */
  lemma {:induction false} KeepTaggedLength(genres: seq<string>, movies: seq<Movie>)
    ensures |KeepTagged(genres, movies)| <= |genres|
  {
    if genres != [] {
      KeepTaggedLength(genres[1..], movies);
    }
  }

  /** The tags of the first `n` movies. */
  ghost function TagsUpTo(movies: seq<Movie>, n: nat): set<string>
    requires n <= |movies|
  {
    set i, t | 0 <= i < n && t in movies[i].tags :: t
  }

  /** The genre derivation of `loadMovies` and `loadSampleMovies`: every tag of
      every movie goes into a set, then the curated list is filtered by it. */
  method DeriveGenres(movies: seq<Movie>) returns (available: seq<string>)
    ensures available == AvailableGenres(movies)
  {
    var allGenres: set<string> := {};
    var i := 0;
    while i < |movies|
      invariant 0 <= i <= |movies|
      invariant allGenres == TagsUpTo(movies, i)
    {
      var tags := movies[i].tags;
      var k := 0;
      while k < |tags|
        invariant 0 <= k <= |tags|
        invariant allGenres == TagsUpTo(movies, i) + set t | t in tags[..k]
      {
        assert tags[..k + 1] == tags[..k] + [tags[k]];
        allGenres := allGenres + {tags[k]};
        k := k + 1;
      }
      assert tags[..k] == tags;
      assert TagsUpTo(movies, i + 1) == TagsUpTo(movies, i) + set t | t in tags;
      i := i + 1;
    }
    available := Filter(PopularGenres, g => g in allGenres);
    forall g | g in PopularGenres ensures (g in allGenres) == HasTag(movies, g) {
      if g in allGenres {
        var j, t :| 0 <= j < |movies| && t in movies[j].tags && t == g;
      }
    }
    FilterExt(PopularGenres, g => g in allGenres, g => HasTag(movies, g));
    KeepTaggedIsFilter(PopularGenres, movies);
  }

  /** The derived chips keep curated order, and a curated genre is offered
      exactly when some movie carries it as an exact tag. */
  lemma AvailableGenresSpec(movies: seq<Movie>)
    ensures IsSubsequence(AvailableGenres(movies), PopularGenres)
    ensures forall g :: g in AvailableGenres(movies) <==> g in PopularGenres && HasTag(movies, g)
  {
    KeepTaggedIsFilter(PopularGenres, movies);
    FilterIsSubsequence(PopularGenres, g => HasTag(movies, g));
    FilterMembers(PopularGenres, g => HasTag(movies, g));
  }

  /** The curated list names no genre twice, so neither do the chips. */
  lemma AvailableGenresNoDup(movies: seq<Movie>)
    ensures NoDup(AvailableGenres(movies))
  {
    assert NoDup(PopularGenres);
    KeepTaggedIsFilter(PopularGenres, movies);
    FilterNoDup(PopularGenres, g => HasTag(movies, g));
  }

  /** The two records `loadSampleMovies` installs when the catalog cannot be fetched. */
  const SampleMovies: seq<Movie> := [SpiderMan, TheBatman]

  const SpiderMan := Movie(1, "Spider-Man: No Way Home", "2021", 83,
    "Peter Parker is unmasked and no longer able to separate his normal life from the high-stakes of being a super-hero.",
    ["Action", "Adventure", "Science Fiction"],
    "https://image.tmdb.org/t/p/original/1g0dhYtq4irTY1GPXvft6k4YLjm.jpg")

  const TheBatman := Movie(2, "The Batman", "2022", 81,
    "In his second year of fighting crime, Batman uncovers corruption in Gotham City that connects to his own family.",
    ["Crime", "Mystery", "Thriller"],
    "https://image.tmdb.org/t/p/original/74xTEgt7R36Fpooo50r9T25onhq.jpg")
}
