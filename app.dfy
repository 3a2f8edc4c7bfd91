/** The front end's state (the module-level `movies`, `selectedGenres`,
    `filteredMovies`, `currentPage` and `genresExpanded`, plus the genre list
    last handed to `renderGenres`) and the handlers that update it. */
module App {
  import opened Seqs
  import opened Text
  import opened Catalog
  import opened Mood
  import opened Ranking
  import opened Paging
  import opened Cards

  /** How a handler ends: results are shown, or an alert is raised and
      nothing changes. */
  datatype Response = Results | Alert(message: string)

  const MoodMissing := "Please describe your mood to get AI recommendations!"
  const GenresMissing := "Please select at least one genre to get recommendations!"
  const NameMissing := "Please enter a movie name to search!"

  /** The selection after `toggleGenre(g)`: `g` appended when absent,
      removed when present. */
  function Toggled(selected: seq<string>, g: string): (r: seq<string>)
    ensures forall x :: x in r <==> (x in selected <==> x != g)
  {
    WithoutMembers(selected, g);
    if g in selected then Without(selected, g) else selected + [g]
  }

  /** Toggling keeps the selection free of repetitions. */
  lemma ToggledNoDup(selected: seq<string>, g: string)
    requires NoDup(selected)
    ensures NoDup(Toggled(selected, g))
  {
    if g in selected {
      WithoutNoDup(selected, g);
    }
  }

  /** Toggling an unselected genre twice restores the selection exactly. */
  lemma ToggleTwiceAbsent(selected: seq<string>, g: string)
    requires g !in selected
    ensures Toggled(Toggled(selected, g), g) == selected
  {
    assert g in selected + [g];
    WithoutAppended(selected, g);
    WithoutAbsent(selected, g);
  }

  /** Toggling a selected genre twice restores the same genres, with `g`
      moved to the end (the list order matters nowhere: the genre filter is
      an "any of"). */
  lemma ToggleTwicePresent(selected: seq<string>, g: string)
    requires g in selected
    ensures Toggled(Toggled(selected, g), g) == Without(selected, g) + [g]
    ensures forall x :: x in Toggled(Toggled(selected, g), g) <==> x in selected
  {
    WithoutMembers(selected, g);
  }

  /** The genre filter depends on the requested genres only as a set, so the
      order a toggle sequence leaves them in does not change any result. */
  lemma FilterBySameGenres(movies: seq<Movie>, a: seq<string>, b: seq<string>)
    requires forall x :: x in a <==> x in b
    ensures FilterByGenres(movies, a) == FilterByGenres(movies, b)
  {
    assert (a == []) == (b == []) by {
      if a != [] { assert a[0] in a; }
      if b != [] { assert b[0] in b; }
    }
    if a != [] {
      forall m | m in movies ensures MatchesGenres(m, a) == MatchesGenres(m, b) {
        if MatchesGenres(m, a) {
          var i, j :| 0 <= i < |a| && 0 <= j < |m.tags| && TagMatches(m.tags[j], a[i]);
          assert a[i] in a;
          var i' :| 0 <= i' < |b| && b[i'] == a[i];
        }
        if MatchesGenres(m, b) {
          var i, j :| 0 <= i < |b| && 0 <= j < |m.tags| && TagMatches(m.tags[j], b[i]);
          assert b[i] in b;
          var i' :| 0 <= i' < |a| && a[i'] == b[i];
        }
      }
      FilterExt(movies, m => MatchesGenres(m, a), m => MatchesGenres(m, b));
    }
  }

  /** The genres the mood handler filters by for a given remote outcome. */
  function MoodRequest(moodText: string, outcome: AiOutcome): seq<string> {
    match outcome
    case AiAnswered(pairs) => GenreNames(pairs)
    case AiFailed => MoodGenres(moodText)
  }

  class AppState {
    var movies: seq<Movie>
    var selectedGenres: seq<string>
    var filteredMovies: seq<Movie>
    var currentPage: int
    var genresExpanded: bool

    /** Pages count from 1; the selection never names a genre twice; the
        chips are never expanded, since their toggle button is never drawn
        (`Cards.AvailableGenresFit`). */
    predicate Valid()
      reads this
    {
      currentPage >= 1 && NoDup(selectedGenres) && !genresExpanded
    }

    /** The genre list `renderGenres` was last given (and its toggle button
        captured): the one derived from the catalog when it was loaded. */
    function GenreChips(): seq<string>
      reads this
    {
      AvailableGenres(movies)
    }

    /** The movies `renderMovies` puts on screen. */
    function ShownMovies(): seq<Movie>
      reads this
      requires Valid()
    {
      PageOf(filteredMovies, currentPage)
    }

    /** Whether `renderMovies` adds the "Load More" button. */
    predicate LoadMoreShown()
      reads this
    {
      HasMore(filteredMovies, currentPage)
    }

    /** The initial values of the globals. */
    constructor()
      ensures Valid()
      ensures movies == [] && selectedGenres == [] && filteredMovies == []
      ensures currentPage == 1 && !genresExpanded
    {
      movies := [];
      selectedGenres := [];
      filteredMovies := [];
      currentPage := 1;
      genresExpanded := false;
    }

    /** `loadMovies`, given what the fetch of the catalog file produced; a
        failed fetch falls back to the sample catalog. `chips` is the list
        handed to `renderGenres`. */
    method LoadMovies(fetched: Option<seq<Movie>>) returns (chips: seq<string>)
      requires Valid()
      modifies this
      ensures Valid()
      ensures movies == (if fetched.Some? then fetched.value else SampleMovies)
      ensures chips == GenreChips()
      ensures selectedGenres == old(selectedGenres) && filteredMovies == old(filteredMovies)
      ensures currentPage == old(currentPage) && genresExpanded == old(genresExpanded)
    {
      match fetched
      case Some(catalog) =>
        movies := catalog;
        chips := DeriveGenres(movies);
      case None =>
        chips := LoadSampleMovies();
    }

    /** `loadSampleMovies`. */
    method LoadSampleMovies() returns (chips: seq<string>)
      requires Valid()
      modifies this
      ensures Valid()
      ensures movies == SampleMovies && chips == GenreChips()
      ensures selectedGenres == old(selectedGenres) && filteredMovies == old(filteredMovies)
      ensures currentPage == old(currentPage) && genresExpanded == old(genresExpanded)
    {
      movies := SampleMovies;
      chips := DeriveGenres(movies);
    }

    /** `toggleGenre`. */
    method ToggleGenre(genre: string)
      requires Valid()
      modifies this
      ensures Valid()
      ensures selectedGenres == Toggled(old(selectedGenres), genre)
      ensures movies == old(movies) && filteredMovies == old(filteredMovies)
      ensures currentPage == old(currentPage) && genresExpanded == old(genresExpanded)
    {
      ToggledNoDup(selectedGenres, genre);
      if genre in selectedGenres {
        selectedGenres := Without(selectedGenres, genre);
      } else {
        selectedGenres := selectedGenres + [genre];
      }
    }

    /** `clearAllGenres`. */
    method ClearAllGenres()
      requires Valid()
      modifies this
      ensures Valid()
      ensures selectedGenres == []
      ensures movies == old(movies) && filteredMovies == old(filteredMovies)
      ensures currentPage == old(currentPage) && genresExpanded == old(genresExpanded)
    {
      selectedGenres := [];
    }

    /** `filterMoviesByGenres`. */
    method FilterMoviesByGenres(genres: seq<string>)
      requires Valid()
      modifies this
      ensures Valid()
      ensures filteredMovies == FilterByGenres(movies, genres)
      ensures movies == old(movies) && selectedGenres == old(selectedGenres)
      ensures currentPage == old(currentPage) && genresExpanded == old(genresExpanded)
    {
      filteredMovies := FilterByGenres(movies, genres);
    }

    /** `showResults`: every new result starts on page 1. */
    method ShowResults()
      requires Valid()
      modifies this
      ensures Valid()
      ensures currentPage == 1
      ensures ShownMovies() == filteredMovies[..Min(|filteredMovies|, MoviesPerPage)]
      ensures movies == old(movies) && selectedGenres == old(selectedGenres)
      ensures filteredMovies == old(filteredMovies) && genresExpanded == old(genresExpanded)
    {
      currentPage := 1;
    }

    /** The "Load More" button: the next page replaces the current one. */
    method LoadMore()
      requires Valid() && LoadMoreShown()
      modifies this
      ensures Valid()
      ensures currentPage == old(currentPage) + 1
      ensures movies == old(movies) && selectedGenres == old(selectedGenres)
      ensures filteredMovies == old(filteredMovies) && genresExpanded == old(genresExpanded)
      ensures ShownMovies() ==
              filteredMovies[old(currentPage) * MoviesPerPage..Min(|filteredMovies|, currentPage * MoviesPerPage)]
      ensures ShownMovies() != []
    {
      currentPage := currentPage + 1;
    }

    /** `getMoodRecommendations`, given the text of the mood box and the
        outcome of the remote classifier. */
    method GetMoodRecommendations(moodInput: string, outcome: AiOutcome) returns (response: Response)
      requires Valid()
      modifies this
      ensures Valid()
      ensures Strip(moodInput) == [] ==>
                response == Alert(MoodMissing) && filteredMovies == old(filteredMovies) &&
                currentPage == old(currentPage)
      ensures Strip(moodInput) != [] ==>
                response == Results && currentPage == 1 &&
                filteredMovies == FilterByGenres(movies, MoodRequest(Strip(moodInput), outcome))
      ensures movies == old(movies) && selectedGenres == old(selectedGenres)
      ensures genresExpanded == old(genresExpanded)
    {
      var moodText := Strip(moodInput);
      if moodText == [] {
        response := Alert(MoodMissing);
        return;
      }
      var recommendedGenres := GetGenresFromAI(moodText, outcome);
      assert recommendedGenres == MoodRequest(moodText, outcome);
      FilterMoviesByGenres(recommendedGenres);
      ShowResults();
      response := Results;
    }

    /** `getGenreRecommendations`: an empty selection only raises an alert. */
    method GetGenreRecommendations() returns (response: Response)
      requires Valid()
      modifies this
      ensures Valid()
      ensures selectedGenres == [] ==>
                response == Alert(GenresMissing) && filteredMovies == old(filteredMovies) &&
                currentPage == old(currentPage)
      ensures selectedGenres != [] ==>
                response == Results && currentPage == 1 &&
                filteredMovies == FilterByGenres(movies, selectedGenres)
      ensures movies == old(movies) && selectedGenres == old(selectedGenres)
      ensures genresExpanded == old(genresExpanded)
    {
      if |selectedGenres| == 0 {
        response := Alert(GenresMissing);
        return;
      }
      FilterMoviesByGenres(selectedGenres);
      ShowResults();
      response := Results;
    }

    /** `showAllMovies`. */
    method ShowAllMovies()
      requires Valid()
      modifies this
      ensures Valid()
      ensures filteredMovies == ShowAll(movies) && currentPage == 1
      ensures movies == old(movies) && selectedGenres == old(selectedGenres)
      ensures genresExpanded == old(genresExpanded)
    {
      filteredMovies := ShowAll(movies);
      ShowResults();
    }

    /** `searchMoviesByName`, given the text of the search box. */
    method SearchMoviesByName(searchInput: string) returns (response: Response)
      requires Valid()
      modifies this
      ensures Valid()
      ensures Strip(searchInput) == [] ==>
                response == Alert(NameMissing) && filteredMovies == old(filteredMovies) &&
                currentPage == old(currentPage)
      ensures Strip(searchInput) != [] ==>
                response == Results && currentPage == 1 &&
                filteredMovies == SearchByTitle(movies, Strip(searchInput))
      ensures movies == old(movies) && selectedGenres == old(selectedGenres)
      ensures genresExpanded == old(genresExpanded)
    {
      var searchTerm := Strip(searchInput);
      if searchTerm == [] {
        response := Alert(NameMissing);
        return;
      }
      var searchLower := Lower(searchTerm);
      filteredMovies := SearchByTitle(movies, searchLower);
      SearchIgnoresCase(movies, searchTerm);
      ShowResults();
      response := Results;
    }
  }

  /** When the remote classifier fails, the mood handler filters by exactly
      what the keyword classifier answers, which is never empty. */
  lemma MoodFallbackRequest(moodText: string)
    ensures MoodRequest(moodText, AiFailed) == MoodGenres(moodText)
    ensures MoodRequest(moodText, AiFailed) != []
  {
    MoodGenresNonEmpty(moodText);
  }
}
