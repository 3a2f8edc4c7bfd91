/** What the front end draws from the data: the genre chips with their
    "Show More" cap, a movie card, and the star line of the detail view. */
module Cards {
  import opened Seqs
  import opened Text
  import opened Catalog

  // ----- Genre chips -----

  const GenresPerPage: nat := 20

  /** The chips `renderGenres` draws: the first 20 while collapsed, all of
      them once expanded. */
  function VisibleGenres(genres: seq<string>, expanded: bool): (r: seq<string>)
    ensures |r| <= |genres| && r == genres[..|r|]
    ensures !expanded ==> |r| == Min(|genres|, GenresPerPage)
    ensures expanded ==> r == genres
  {
    if !expanded && |genres| > GenresPerPage then genres[..GenresPerPage] else genres
  }

  /** The "Show More / Show Less Genres" button exists only past the cap. */
  predicate ShowsGenreToggle(genres: seq<string>) {
    |genres| > GenresPerPage
  }

  /** Without the button every chip is already visible. */
  lemma NoToggleShowsAll(genres: seq<string>, expanded: bool)
    requires !ShowsGenreToggle(genres)
    ensures VisibleGenres(genres, expanded) == genres
  {
  }

  /** The chips are drawn from the 16 curated genres, fewer than the cap, so
      for any catalog the toggle button is never created and every chip is
      drawn whatever `genresExpanded` holds. */
  lemma AvailableGenresFit(movies: seq<Movie>, expanded: bool)
    ensures |AvailableGenres(movies)| <= |PopularGenres| < GenresPerPage
    ensures !ShowsGenreToggle(AvailableGenres(movies))
    ensures VisibleGenres(AvailableGenres(movies), expanded) == AvailableGenres(movies)
  {
    KeepTaggedLength(PopularGenres, movies);
  }

  // ----- Movie card -----

  /** The fields of a card. `poster` is `None` where the card shows the film
      icon instead of an image; `moreTags` is the count in the "+N more" chip. */
  datatype Card = Card(
    title: string, year: string, rating: int, description: string,
    tags: seq<string>, moreTags: Option<nat>, poster: Option<string>)

  const DescriptionLength: nat := 100
  const TagsShown: nat := 3

  /** `x || fallback` on a string: the empty string is falsy. */
  function OrElse(x: string, fallback: string): string {
    if x == "" then fallback else x
  }

  /** `createMovieCard`. */
  function MakeCard(m: Movie): (c: Card)
    ensures c.title != "" && c.year != ""
    ensures m.title != "" ==> c.title == m.title
    ensures m.title == "" ==> c.title == "Unknown Title"
    ensures m.year != "" ==> c.year == m.year
    ensures m.year == "" ==> c.year == "Unknown"
    ensures c.rating == m.rating
    ensures |c.description| <= DescriptionLength + 3
    ensures |c.tags| == Min(|m.tags|, TagsShown) && c.tags == m.tags[..|c.tags|]
    ensures c.moreTags.Some? <==> |m.tags| > TagsShown
    ensures c.moreTags.Some? ==> |c.tags| + c.moreTags.value == |m.tags|
    ensures c.poster.Some? <==> m.poster != ""
  {
    var description := OrElse(m.description, "No description available");
    Card(
      OrElse(m.title, "Unknown Title"),
      OrElse(m.year, "Unknown"),
      m.rating,
      Ellipsize(description, DescriptionLength),
      m.tags[..Min(|m.tags|, TagsShown)],
      if |m.tags| > TagsShown then Some(|m.tags| - TagsShown) else None,
      if m.poster == "" then None else Some(m.poster))
  }

  /** The card text is the description itself when it is short, its first
      100 characters followed by "..." when it is long, and a fixed notice
      when there is none. */
  lemma CardDescription(m: Movie)
    ensures m.description == "" ==> MakeCard(m).description == "No description available"
    ensures m.description != "" && |m.description| <= DescriptionLength ==>
              MakeCard(m).description == m.description
    ensures |m.description| > DescriptionLength ==>
              MakeCard(m).description == m.description[..DescriptionLength] + "..."
  {
  }

  // ----- Stars of the detail view -----

  /** The star literals as they stand in the script: the UTF-8 bytes of
      U+2605 and U+2606 read back as Windows-1252, three characters each
      ("â˜…" and "â˜†"). */
  const FilledStar: string := "\U{E2}\U{2DC}\U{2026}"
  const EmptyStar: string := "\U{E2}\U{2DC}\U{2020}"
  const StarWidth: nat := 3

  /** `u.repeat(n)`. */
  function Repeat(u: string, n: nat): (r: string)
    ensures |r| == n * |u|
  {
    if n == 0 then [] else u + Repeat(u, n - 1)
  }

  /** The `k`-th copy in a repeat of a three-character unit. */
  lemma {:induction false} RepeatBlock(u: string, n: nat, k: nat)
    requires |u| == StarWidth && k < n
    ensures Repeat(u, n)[StarWidth * k .. StarWidth * k + StarWidth] == u
  {
    if k > 0 {
      RepeatBlock(u, n - 1, k - 1);
      var rest := Repeat(u, n - 1);
      assert Repeat(u, n) == u + rest;
      assert (u + rest)[StarWidth * k .. StarWidth * k + StarWidth]
          == rest[StarWidth * (k - 1) .. StarWidth * (k - 1) + StarWidth];
    }
  }

  /** How many stars the line holds: `floor`, raised to five by the empty ones. */
  function StarCount(rating: int): int {
    if rating / 10 >= 5 then rating / 10 else 5
  }

  /** `Math.floor(rating)` filled stars, then empty ones up to five. The
      rating is in tenths, so the floor is `rating / 10`. A negative rating
      makes `repeat` throw a `RangeError` and the detail view is not drawn:
      that is `None`. Each star is a three-character literal. */
  function Stars(rating: int): (r: Option<string>)
    ensures r.None? <==> rating < 0
    ensures r.Some? ==> |r.value| == StarWidth * StarCount(rating)
  {
    var filled := rating / 10;
    if filled < 0 then None
    else Some(Repeat(FilledStar, filled) + Repeat(EmptyStar, if filled >= 5 then 0 else 5 - filled))
  }

  /** Star `k` of `filled` filled stars followed by `empty` empty ones. */
  lemma {:induction false} StarAt(filled: nat, empty: nat, k: nat)
    requires k < filled + empty
    ensures (Repeat(FilledStar, filled) + Repeat(EmptyStar, empty))[StarWidth * k .. StarWidth * k + StarWidth]
            == (if k < filled then FilledStar else EmptyStar)
  {
    var f := Repeat(FilledStar, filled);
    var e := Repeat(EmptyStar, empty);
    assert |f| == StarWidth * filled;
    if k < filled {
      RepeatBlock(FilledStar, filled, k);
      assert (f + e)[StarWidth * k .. StarWidth * k + StarWidth] == f[StarWidth * k .. StarWidth * k + StarWidth];
    } else {
      RepeatBlock(EmptyStar, empty, k - filled);
      assert (f + e)[StarWidth * k .. StarWidth * k + StarWidth]
          == e[StarWidth * (k - filled) .. StarWidth * (k - filled) + StarWidth];
    }
  }

  /** Star `k` of the line is the filled literal for the first `floor(rating)`
      positions and the empty one after them. */
  lemma StarsBlocks(rating: int)
    ensures Stars(rating).Some? ==>
              forall k :: 0 <= k < StarCount(rating) ==>
                Stars(rating).value[StarWidth * k .. StarWidth * k + StarWidth] ==
                (if k < rating / 10 then FilledStar else EmptyStar)
  {
    if rating >= 0 {
      var filled := rating / 10;
      var empty := if filled >= 5 then 0 else 5 - filled;
      forall k | 0 <= k < StarCount(rating)
        ensures Stars(rating).value[StarWidth * k .. StarWidth * k + StarWidth] ==
                (if k < filled then FilledStar else EmptyStar)
      {
        StarAt(filled, empty, k);
      }
    }
  }

  /** Ratings are on a ten-point scale, so from 6.0 up the line holds more
      than five stars, all of them filled. */
  lemma StarsAboveSix(rating: int)
    requires rating >= 60
    ensures Stars(rating).Some? && StarCount(rating) == rating / 10 > 5
    ensures forall k :: 0 <= k < StarCount(rating) ==>
              Stars(rating).value[StarWidth * k .. StarWidth * k + StarWidth] == FilledStar
  {
    StarsBlocks(rating);
  }
}
