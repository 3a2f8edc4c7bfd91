/** Which movies a request selects and the order they are listed in:
    the genre filter, the title search and "show all", each followed by the
    sort on `b.rating - a.rating`. */
module Ranking {
  import opened Seqs
  import opened Text
  import opened Catalog

  // ----- The sort -----

  /** Highest rating first. */
  predicate SortedByRating(s: seq<Movie>) {
    forall i, j :: 0 <= i < j < |s| ==> s[i].rating >= s[j].rating
  }

  /** The movies of `s` with rating `r`, in order. */
  function RatedAs(s: seq<Movie>, r: int): seq<Movie> {
    if s == [] then [] else (if s[0].rating == r then [s[0]] else []) + RatedAs(s[1..], r)
  }

  /** `result` lists `s` highest rating first, and movies of equal rating keep
      the order they have in `s`: what the stable array sort (section 23.1.3.30
      of ECMA-262) with comparator `b.rating - a.rating` yields. */
  ghost predicate RankedFrom(result: seq<Movie>, s: seq<Movie>) {
    && SortedByRating(result)
    && multiset(result) == multiset(s)
    && forall r :: RatedAs(result, r) == RatedAs(s, r)
  }

  /** Places `m` before the first movie rated no higher than it, so `m` ends
      up after every movie rated higher and before the equally rated ones of `t`. */
  function Insert(m: Movie, t: seq<Movie>): seq<Movie> {
    if t == [] then [m]
    else if t[0].rating <= m.rating then [m] + t
    else [t[0]] + Insert(m, t[1..])
  }

  /** The sort, by insertion from the back. */
  function SortByRating(s: seq<Movie>): seq<Movie> {
    if s == [] then [] else Insert(s[0], SortByRating(s[1..]))
  }

  lemma {:induction false} InsertMultiset(m: Movie, t: seq<Movie>)
    ensures multiset(Insert(m, t)) == multiset(t) + multiset{m}
  {
    if t != [] && t[0].rating > m.rating {
      InsertMultiset(m, t[1..]);
      assert t == [t[0]] + t[1..];
    }
  }

  lemma {:induction false} InsertSorted(m: Movie, t: seq<Movie>)
    requires SortedByRating(t)
    ensures SortedByRating(Insert(m, t))
    ensures Insert(m, t) != [] && (Insert(m, t)[0] == m || (t != [] && Insert(m, t)[0] == t[0]))
  {
    if t != [] && t[0].rating > m.rating {
      InsertSorted(m, t[1..]);
      var u := Insert(m, t[1..]);
      assert Insert(m, t) == [t[0]] + u;
      InsertMembers(m, t[1..]);
      forall j | 0 <= j < |u| ensures t[0].rating >= u[j].rating {
        assert u[j] in u;
      }
    }
  }

  lemma {:induction false} InsertMembers(m: Movie, t: seq<Movie>)
    ensures forall x :: x in Insert(m, t) <==> x == m || x in t
  {
    if t != [] && t[0].rating > m.rating {
      InsertMembers(m, t[1..]);
      assert t == [t[0]] + t[1..];
    }
  }

  /** Insertion never reorders movies of one rating: `m` goes in front of the
      equally rated movies of `t`. */
  lemma {:induction false} InsertRatedAs(m: Movie, t: seq<Movie>, r: int)
    ensures RatedAs(Insert(m, t), r) == (if m.rating == r then [m] else []) + RatedAs(t, r)
  {
    if t == [] {
    } else if t[0].rating <= m.rating {
      assert ([m] + t)[1..] == t;
    } else {
      InsertRatedAs(m, t[1..], r);
      assert ([t[0]] + Insert(m, t[1..]))[1..] == Insert(m, t[1..]);
    }
  }

  /** The sort is sorted, a permutation, and stable. */
  lemma {:induction false} SortByRatingRanked(s: seq<Movie>)
    ensures RankedFrom(SortByRating(s), s)
  {
    if s != [] {
      SortByRatingRanked(s[1..]);
      InsertSorted(s[0], SortByRating(s[1..]));
      InsertMultiset(s[0], SortByRating(s[1..]));
      assert s == [s[0]] + s[1..];
      forall r ensures RatedAs(SortByRating(s), r) == RatedAs(s, r) {
        InsertRatedAs(s[0], SortByRating(s[1..]), r);
      }
    }
  }

  lemma {:induction false} RatedAsMembers(s: seq<Movie>, r: int)
    ensures forall m :: m in RatedAs(s, r) <==> m in s && m.rating == r
  {
    if s != [] {
      RatedAsMembers(s[1..], r);
      assert s == [s[0]] + s[1..];
    }
  }

  /** A sorted list is the concatenation of its rating groups, highest first;
      so the three properties of `RankedFrom` leave one possible order. */
  lemma {:induction false} RankedUnique(a: seq<Movie>, b: seq<Movie>, s: seq<Movie>)
    requires RankedFrom(a, s) && RankedFrom(b, s)
    ensures a == b
    decreases |a|
  {
    assert |a| == |b| by { assert |multiset(a)| == |multiset(b)|; }
    if a != [] {
      RankedHead(a, b, s);
      RankedTail(a, b, s);
      RankedUnique(a[1..], b[1..], a[1..]);
      assert a == [a[0]] + a[1..] && b == [b[0]] + b[1..];
    }
  }

  /** Removing the common first movie from two rankings of one list leaves
      two rankings of the rest. */
  lemma RankedTail(a: seq<Movie>, b: seq<Movie>, s: seq<Movie>)
    requires RankedFrom(a, s) && RankedFrom(b, s) && a != [] && b != [] && a[0] == b[0]
    ensures RankedFrom(a[1..], a[1..]) && RankedFrom(b[1..], a[1..])
  {
    MultisetTail(a, b);
    RatedAsTail(a, b);
    SortedTail(a);
    SortedTail(b);
  }

  lemma RatedAsTail(a: seq<Movie>, b: seq<Movie>)
    requires a != [] && b != [] && a[0] == b[0]
    requires forall r :: RatedAs(a, r) == RatedAs(b, r)
    ensures forall r :: RatedAs(a[1..], r) == RatedAs(b[1..], r)
  {
    forall r ensures RatedAs(a[1..], r) == RatedAs(b[1..], r) {
      var pre := if a[0].rating == r then [a[0]] else [];
      assert RatedAs(a, r) == pre + RatedAs(a[1..], r);
      assert RatedAs(b, r) == pre + RatedAs(b[1..], r);
      assert RatedAs(a[1..], r) == RatedAs(a, r)[|pre|..];
    }
  }

  lemma MultisetTail(a: seq<Movie>, b: seq<Movie>)
    requires a != [] && b != [] && a[0] == b[0] && multiset(a) == multiset(b)
    ensures multiset(a[1..]) == multiset(b[1..])
  {
    assert a == [a[0]] + a[1..] && b == [b[0]] + b[1..];
    assert multiset(a[1..]) == multiset(a) - multiset{a[0]};
    assert multiset(b[1..]) == multiset(b) - multiset{a[0]};
  }

  lemma SortedTail(s: seq<Movie>)
    requires SortedByRating(s) && s != []
    ensures SortedByRating(s[1..])
  {
    forall i, j | 0 <= i < j < |s| - 1 ensures s[1..][i].rating >= s[1..][j].rating {
      assert s[1..][i] == s[i + 1] && s[1..][j] == s[j + 1];
    }
  }

  /** Two rankings of one list start with the same movie: the first, in list
      order, of the highest rating. */
  lemma RankedHead(a: seq<Movie>, b: seq<Movie>, s: seq<Movie>)
    requires RankedFrom(a, s) && RankedFrom(b, s) && a != [] && b != []
    ensures a[0] == b[0]
  {
    var top := a[0].rating;
    assert a[0] in multiset(b);
    assert b[0] in multiset(a);
    assert b[0].rating == top;
    assert RatedAs(a, top)[0] == a[0];
    assert RatedAs(b, top)[0] == b[0];
  }

  // ----- Filters -----

  /** `movieTag.toLowerCase().includes(genre.toLowerCase())`. */
  predicate TagMatches(tag: string, genre: string) {
    Contains(Lower(tag), Lower(genre))
  }

  /** Some requested genre matches some tag of the movie. */
  predicate MatchesGenres(m: Movie, genres: seq<string>) {
    exists i, j :: 0 <= i < |genres| && 0 <= j < |m.tags| && TagMatches(m.tags[j], genres[i])
  }

  /** The movies a genre request keeps, before sorting: all of them for an
      empty request, else those matching some requested genre. */
  function GenreSelection(movies: seq<Movie>, genres: seq<string>): seq<Movie> {
    if genres == [] then movies else Filter(movies, m => MatchesGenres(m, genres))
  }

  /** `filterMoviesByGenres`: the selection, sorted. */
  function FilterByGenres(movies: seq<Movie>, genres: seq<string>): seq<Movie> {
    SortByRating(GenreSelection(movies, genres))
  }

  /** The genre filter is sound and complete: a non-empty request yields
      exactly the movies with a tag matching a requested genre, each as often
      as in the catalog, highest rated first and stable. */
  lemma FilterByGenresSpec(movies: seq<Movie>, genres: seq<string>)
    requires genres != []
    ensures forall m :: m in FilterByGenres(movies, genres) <==> m in movies && MatchesGenres(m, genres)
    ensures forall m ::
              multiset(FilterByGenres(movies, genres))[m] == if MatchesGenres(m, genres) then multiset(movies)[m] else 0
    ensures RankedFrom(FilterByGenres(movies, genres), Filter(movies, m => MatchesGenres(m, genres)))
  {
    var p := m => MatchesGenres(m, genres);
    SortByRatingRanked(Filter(movies, p));
    FilterMembers(movies, p);
    FilterMultiset(movies, p);
    forall m ensures multiset(FilterByGenres(movies, genres))[m] ==
      (if MatchesGenres(m, genres) then multiset(movies)[m] else 0)
    {
      if !MatchesGenres(m, genres) {
        assert m !in Filter(movies, p);
      }
    }
  }

  /** An empty genre request lists the whole catalog, sorted. */
  lemma FilterByNoGenres(movies: seq<Movie>)
    ensures RankedFrom(FilterByGenres(movies, []), movies)
  {
    SortByRatingRanked(movies);
  }

  /** `movie.title.toLowerCase().includes(searchLower)`. */
  predicate TitleMatches(m: Movie, term: string) {
    Contains(Lower(m.title), Lower(term))
  }

  /** The title search of `searchMoviesByName`, given the trimmed term. */
  function SearchByTitle(movies: seq<Movie>, term: string): seq<Movie> {
    SortByRating(Filter(movies, m => TitleMatches(m, term)))
  }

  /** The search yields exactly the movies whose lowercased title contains the
      lowercased term, each as often as in the catalog, sorted and stable. */
  lemma SearchByTitleSpec(movies: seq<Movie>, term: string)
    ensures forall m :: m in SearchByTitle(movies, term) <==> m in movies && TitleMatches(m, term)
    ensures forall m ::
              multiset(SearchByTitle(movies, term))[m] == if TitleMatches(m, term) then multiset(movies)[m] else 0
    ensures RankedFrom(SearchByTitle(movies, term), Filter(movies, m => TitleMatches(m, term)))
  {
    var p := m => TitleMatches(m, term);
    SortByRatingRanked(Filter(movies, p));
    FilterMembers(movies, p);
    FilterMultiset(movies, p);
    forall m ensures multiset(SearchByTitle(movies, term))[m] ==
      (if TitleMatches(m, term) then multiset(movies)[m] else 0)
    {
      if !TitleMatches(m, term) {
        assert m !in Filter(movies, p);
      }
    }
  }

  /** Search is case-insensitive: the case of the term does not matter. */
  lemma SearchIgnoresCase(movies: seq<Movie>, term: string)
    ensures SearchByTitle(movies, Lower(term)) == SearchByTitle(movies, term)
  {
    LowerIdempotent(term);
    FilterExt(movies, m => TitleMatches(m, Lower(term)), m => TitleMatches(m, term));
  }

  /** "Show all": the whole catalog, sorted. */
  function ShowAll(movies: seq<Movie>): seq<Movie> {
    SortByRating(movies)
  }

  lemma ShowAllSpec(movies: seq<Movie>)
    ensures RankedFrom(ShowAll(movies), movies)
  {
    SortByRatingRanked(movies);
  }
}
