/** The merge of the two datasets: HuggingFace rows and Kaggle metadata rows
    are cleaned into one record shape, the Kaggle keywords are looked up by
    TMDB id, and the concatenated list is numbered from 1. */
module Merge {
  import opened Seqs
  import opened Text
  import Download

  /** A combined record. `id` is `None` until the final loop adds the key;
      `rating` is `None` where the rating is NaN. */
  datatype MergedMovie = MergedMovie(
    id: Option<nat>, title: string, year: string, rating: Option<int>,
    description: string, tags: seq<string>, poster: string, source: string)

  const DescriptionLength: nat := 200
  const TagLimit: nat := 5
  const PosterBase := "https://image.tmdb.org/t/p/original"
  const HuggingFace := "HuggingFace"
  const Kaggle := "Kaggle"

  /** `s and s.lower() != "nan"`: the test for a usable title, overview or
      poster after stripping. */
  predicate Present(s: string) {
    s != "" && Lower(s) != "nan"
  }

  /** The year: "Unknown" when the date cell is NaN, otherwise the year
      `pd.to_datetime(..., errors='coerce')` finds, which reads "nan" for a
      date it cannot parse; `yearOf` stands for that call. */
  function YearOf(releaseDate: Option<string>, yearOf: string -> Option<string>): string {
    if releaseDate.None? then Download.Unknown else yearOf(releaseDate.value).GetOr("nan")
  }

  /** The stripped overview, or the default text when it is empty or "nan";
      truncated to 200 characters plus "...". */
  function Description(overview: string): (r: string)
    ensures |r| <= DescriptionLength + 3
    ensures Present(Strip(overview)) && |Strip(overview)| <= DescriptionLength ==> r == Strip(overview)
    ensures Present(Strip(overview)) && |Strip(overview)| > DescriptionLength ==>
              r == Strip(overview)[..DescriptionLength] + "..."
    ensures !Present(Strip(overview)) ==> r == Download.NoDescription
  {
    var o := Strip(overview);
    Ellipsize(if Present(o) then o else Download.NoDescription, DescriptionLength)
  }

  // ----- HuggingFace rows -----

  /** A row of `movies_raw.csv`; text cells hold `str(cell)`, so NaN reads
      "nan"; `releaseDate` is `None` for a NaN cell. */
  datatype HfRow = HfRow(
    title: string, releaseDate: Option<string>, genre: string, overview: string,
    voteAverage: Download.NumCell, posterUrl: string)

  /** `float(vote_average)`, 0 when that raises; NaN stays NaN. */
  function HfRating(v: Download.NumCell): Option<int> {
    match v
    case Number(x) => Some(x)
    case Missing => None
    case Malformed => Some(0)
  }

  /** What the HuggingFace loop makes of a row: nothing when the title or the
      poster is empty or "nan" in any case. */
  function CleanHfRow(row: HfRow, yearOf: string -> Option<string>): Option<MergedMovie> {
    var title := Strip(row.title);
    var poster := Strip(row.posterUrl);
    if !Present(title) || !Present(poster) then None
    else
      var genres := StrippedNonEmpty(Split(row.genre, ','));
      Some(MergedMovie(None, title, YearOf(row.releaseDate, yearOf), HfRating(row.voteAverage),
                       Description(row.overview), genres[..Min(|genres|, TagLimit)], poster, HuggingFace))
  }

  /** The HuggingFace records, in row order. */
  function HfMovies(rows: seq<HfRow>, yearOf: string -> Option<string>): seq<MergedMovie>
    decreases |rows|
  {
    if rows == [] then []
    else HfMovies(rows[..|rows| - 1], yearOf) + Download.OptionToSeq(CleanHfRow(rows[|rows| - 1], yearOf))
  }

  /** The HuggingFace loop. */
  method LoadHuggingFace(rows: seq<HfRow>, yearOf: string -> Option<string>) returns (movies: seq<MergedMovie>)
    ensures movies == HfMovies(rows, yearOf)
  {
    movies := [];
    for idx := 0 to |rows|
      invariant movies == HfMovies(rows[..idx], yearOf)
    {
      var row := rows[idx];
      ghost var cleaned := CleanHfRow(row, yearOf);
      assert rows[..idx + 1][..idx] == rows[..idx];
      assert HfMovies(rows[..idx + 1], yearOf) == movies + Download.OptionToSeq(cleaned);
      var title := Strip(row.title);
      if title == "" || Lower(title) == "nan" {
        continue;
      }
      var year := YearOf(row.releaseDate, yearOf);
      var genres := StrippedNonEmpty(Split(row.genre, ','));
      var overview := Strip(row.overview);
      if overview == "" || Lower(overview) == "nan" {
        overview := Download.NoDescription;
      }
      var rating := HfRating(row.voteAverage);
      var poster := Strip(row.posterUrl);
      if poster == "" || Lower(poster) == "nan" {
        continue;
      }
      var movie := MergedMovie(None, title, year, rating,
                               if |overview| > DescriptionLength then overview[..DescriptionLength] + "..." else overview,
                               genres[..Min(|genres|, TagLimit)], poster, HuggingFace);
      assert movie == cleaned.value;
      movies := movies + [movie];
    }
    assert rows[..|rows|] == rows;
  }

  /** A HuggingFace record exists exactly for a row with a usable title and
      poster; it carries them stripped, the overview or the default, and the
      first five clean genre pieces. */
  lemma CleanHfRowSpec(row: HfRow, yearOf: string -> Option<string>)
    ensures CleanHfRow(row, yearOf).Some? <==> Present(Strip(row.title)) && Present(Strip(row.posterUrl))
    ensures CleanHfRow(row, yearOf).Some? ==>
              var m := CleanHfRow(row, yearOf).value;
              && m.id.None? && m.title == Strip(row.title) && m.poster == Strip(row.posterUrl)
              && m.source == HuggingFace && m.description == Description(row.overview)
              && |m.tags| == Min(|StrippedNonEmpty(Split(row.genre, ','))|, TagLimit)
              && m.tags == StrippedNonEmpty(Split(row.genre, ','))[..|m.tags|]
              && (forall t :: t in m.tags ==> t != "" && Strip(t) == t && ',' !in t)
  {
    SplitStrippedClean(row.genre, ',');
  }

  /** A HuggingFace record is in the list exactly when it is the cleaning of
      some row. */
  lemma {:induction false} HfMoviesMembers(rows: seq<HfRow>, yearOf: string -> Option<string>)
    ensures forall m :: m in HfMovies(rows, yearOf) <==> exists r :: r in rows && CleanHfRow(r, yearOf) == Some(m)
    decreases |rows|
  {
    if rows != [] {
      var init := rows[..|rows| - 1];
      var last := rows[|rows| - 1];
      HfMoviesMembers(init, yearOf);
      assert rows == init + [last];
      assert forall r :: r in rows <==> r in init || r == last;
    }
  }

  /** The loop keeps row order: the records of two runs of rows are those of
      the first run followed by those of the second. */
  lemma {:induction false} HfMoviesConcat(a: seq<HfRow>, b: seq<HfRow>, yearOf: string -> Option<string>)
    ensures HfMovies(a + b, yearOf) == HfMovies(a, yearOf) + HfMovies(b, yearOf)
    decreases |b|
  {
    if b == [] {
      assert a + b == a;
    } else {
      var n := |b| - 1;
      HfMoviesConcat(a, b[..n], yearOf);
      assert (a + b)[..|a + b| - 1] == a + b[..n];
      assert (a + b)[|a + b| - 1] == b[n];
    }
  }

  /** A single row gives its own record, or nothing when it is skipped. */
  lemma HfMoviesSingle(r: HfRow, yearOf: string -> Option<string>)
    ensures CleanHfRow(r, yearOf).Some? ==> HfMovies([r], yearOf) == [CleanHfRow(r, yearOf).value]
    ensures CleanHfRow(r, yearOf).None? ==> HfMovies([r], yearOf) == []
  {
    assert [r][..0] == [];
  }

  // ----- Kaggle keywords -----

  /** A row of `keywords.csv` after `ast.literal_eval`: `None` when the cell
      does not parse, else one entry per keyword object, `None` where the
      object has no "name". */
  datatype KeywordRow = KeywordRow(id: int, keywords: Option<seq<Option<string>>>)

  /** `[k["name"] for k in keywords if "name" in k]`. */
  function Names(entries: seq<Option<string>>): (r: seq<string>)
    ensures forall x :: x in r <==> Some(x) in entries
  {
    if entries == [] then []
    else
      assert forall e :: e in entries <==> e == entries[0] || e in entries[1..];
      (if entries[0].Some? then [entries[0].value] else []) + Names(entries[1..])
  }

  /** The keyword list a row contributes: empty when the cell does not parse. */
  function KeywordsOf(row: KeywordRow): seq<string> {
    if row.keywords.Some? then Names(row.keywords.value) else []
  }

  /** `tmdb_to_keywords`: each id maps to the keywords of its last row. */
  function KeywordMap(rows: seq<KeywordRow>): map<int, seq<string>>
    decreases |rows|
  {
    if rows == [] then map[]
    else KeywordMap(rows[..|rows| - 1])[rows[|rows| - 1].id := KeywordsOf(rows[|rows| - 1])]
  }

  /** The keyword loop. */
  method BuildKeywordMap(rows: seq<KeywordRow>) returns (tmdbToKeywords: map<int, seq<string>>)
    ensures tmdbToKeywords == KeywordMap(rows)
  {
    tmdbToKeywords := map[];
    for i := 0 to |rows|
      invariant tmdbToKeywords == KeywordMap(rows[..i])
    {
      assert rows[..i + 1][..i] == rows[..i];
      var row := rows[i];
      match row.keywords {
        case Some(entries) => tmdbToKeywords := tmdbToKeywords[row.id := Names(entries)];
        case None => tmdbToKeywords := tmdbToKeywords[row.id := []];
      }
    }
    assert rows[..|rows|] == rows;
  }

  /** The map has a key for exactly the ids of the rows. */
  lemma {:induction false} KeywordMapKeys(rows: seq<KeywordRow>)
    ensures forall id :: id in KeywordMap(rows) <==> exists i :: 0 <= i < |rows| && rows[i].id == id
    decreases |rows|
  {
    if rows != [] {
      var init := rows[..|rows| - 1];
      var last := rows[|rows| - 1];
      KeywordMapKeys(init);
      assert KeywordMap(rows) == KeywordMap(init)[last.id := KeywordsOf(last)];
      forall id ensures id in KeywordMap(rows) <==> exists i :: 0 <= i < |rows| && rows[i].id == id {
        if id in KeywordMap(rows) && id != last.id {
          var i :| 0 <= i < |init| && init[i].id == id;
          assert rows[i] == init[i];
        }
        if exists i :: 0 <= i < |rows| && rows[i].id == id {
          var i :| 0 <= i < |rows| && rows[i].id == id;
          if i < |init| {
            assert init[i] == rows[i];
          }
        }
      }
    }
  }

  /** The value of an id is the keyword list of the last row with that id. */
  lemma {:induction false} KeywordMapLast(rows: seq<KeywordRow>, i: nat)
    requires i < |rows| && forall j :: i < j < |rows| ==> rows[j].id != rows[i].id
    ensures rows[i].id in KeywordMap(rows) && KeywordMap(rows)[rows[i].id] == KeywordsOf(rows[i])
    decreases |rows|
  {
    var init := rows[..|rows| - 1];
    var last := rows[|rows| - 1];
    assert KeywordMap(rows) == KeywordMap(init)[last.id := KeywordsOf(last)];
    if i < |rows| - 1 {
      assert init[i] == rows[i];
      assert forall j :: i < j < |init| ==> init[j] == rows[j];
      KeywordMapLast(init, i);
    }
  }

  // ----- Kaggle rows -----

  /** A row of `movies_metadata.csv`. `id` is already coerced to an integer;
      `genres` is the `ast.literal_eval` of the cell (`None` when it does not
      parse, an entry `None` for a genre object without "name"). */
  datatype KaggleRow = KaggleRow(
    id: int, title: string, releaseDate: Option<string>, genres: Option<seq<Option<string>>>,
    overview: string, voteAverage: Download.NumCell, posterPath: string)

  /** `parse_genres`: the genre names, or none at all when the cell does not
      parse or some genre object lacks a name (the `KeyError` is caught too). */
  function ParseGenres(parsed: Option<seq<Option<string>>>): (r: seq<string>)
    ensures parsed.None? ==> r == []
    ensures parsed.Some? && (forall e :: e in parsed.value ==> e.Some?) ==>
              forall x :: x in r <==> Some(x) in parsed.value
    ensures parsed.Some? && None in parsed.value ==> r == []
  {
    if parsed.Some? && forall e :: e in parsed.value ==> e.Some? then Names(parsed.value) else []
  }

  /** `list(set(genres + keywords))[:5]`. Python leaves the set's order open;
      the model lists the distinct values in order of first occurrence, and
      nothing below depends on that choice. */
  function KaggleTags(genres: seq<string>, keywords: seq<string>): (r: seq<string>)
    ensures |r| <= TagLimit && NoDup(r)
    ensures forall t :: t in r ==> t in genres || t in keywords
    ensures |Dedup(genres + keywords)| <= TagLimit ==> forall t :: t in genres + keywords ==> t in r
  {
    var distinct := Dedup(genres + keywords);
    DedupMembers(genres + keywords);
    DedupNoDup(genres + keywords);
    var r := distinct[..Min(|distinct|, TagLimit)];
    assert forall t :: t in r ==> t in distinct;
    assert |distinct| <= TagLimit ==> r == distinct;
    r
  }

  /** `tmdb_to_keywords.get(tmdb_id, [])`. */
  function LookupKeywords(keywords: map<int, seq<string>>, id: int): seq<string> {
    if id in keywords then keywords[id] else []
  }

  /** As many tags as `list(set(genres + keywords))[:5]` has: the number of
      distinct values, capped at five. */
  lemma KaggleTagsCount(genres: seq<string>, keywords: seq<string>)
    ensures |KaggleTags(genres, keywords)| == Min(|set t | t in genres + keywords|, TagLimit)
  {
    DedupCard(genres + keywords);
  }

  /** `float(vote_average or 0.0)`: NaN is truthy and stays NaN. */
  function KaggleRating(v: Download.NumCell): Option<int> {
    if v.Number? then Some(v.value) else None
  }

  /** What the Kaggle loop does with a row: skip it, keep a record, or stop
      the script (when `float` raises on `vote_average`, which nothing catches). */
  datatype KaggleOutcome = Skipped | Kept(movie: MergedMovie) | Aborted

  function CleanKaggleRow(row: KaggleRow, validIds: set<int>, keywords: map<int, seq<string>>,
                          yearOf: string -> Option<string>): KaggleOutcome
  {
    var title := Strip(row.title);
    var path := Strip(row.posterPath);
    if row.id !in validIds || !Present(title) then Skipped
    else if row.voteAverage.Malformed? then Aborted
    else if !Present(path) then Skipped
    else
      Kept(MergedMovie(None, title, YearOf(row.releaseDate, yearOf), KaggleRating(row.voteAverage),
                       Description(row.overview),
                       KaggleTags(ParseGenres(row.genres), LookupKeywords(keywords, row.id)),
                       PosterBase + path, Kaggle))
  }

  /** The Kaggle records, in row order; `None` when the script stops. */
  function KaggleMovies(rows: seq<KaggleRow>, validIds: set<int>, keywords: map<int, seq<string>>,
                        yearOf: string -> Option<string>): Option<seq<MergedMovie>>
    decreases |rows|
  {
    if rows == [] then Some([])
    else
      var before := KaggleMovies(rows[..|rows| - 1], validIds, keywords, yearOf);
      match CleanKaggleRow(rows[|rows| - 1], validIds, keywords, yearOf)
      case Aborted => None
      case Skipped => before
      case Kept(m) => if before.Some? then Some(before.value + [m]) else None
  }

  /** One more row: the outcome of its cleaning decides the new list. */
  lemma KaggleStep(rows: seq<KaggleRow>, validIds: set<int>, keywords: map<int, seq<string>>,
                   yearOf: string -> Option<string>, i: nat)
    requires i < |rows|
    ensures var before := KaggleMovies(rows[..i], validIds, keywords, yearOf);
      KaggleMovies(rows[..i + 1], validIds, keywords, yearOf) ==
        match CleanKaggleRow(rows[i], validIds, keywords, yearOf)
        case Aborted => None
        case Skipped => before
        case Kept(m) => if before.Some? then Some(before.value + [m]) else None
  {
    assert rows[..i + 1][..i] == rows[..i];
  }

  /** Once the script has stopped, later rows change nothing. */
  lemma {:induction false} KaggleAbortSticks(rows: seq<KaggleRow>, validIds: set<int>,
                                             keywords: map<int, seq<string>>,
                                             yearOf: string -> Option<string>, n: nat)
    requires n <= |rows| && KaggleMovies(rows[..n], validIds, keywords, yearOf).None?
    ensures KaggleMovies(rows, validIds, keywords, yearOf).None?
    decreases |rows| - n
  {
    if n < |rows| {
      KaggleStep(rows, validIds, keywords, yearOf, n);
      KaggleAbortSticks(rows, validIds, keywords, yearOf, n + 1);
    } else {
      assert rows[..n] == rows;
    }
  }

  /** What the cleaning makes of each row, in row order. */
  function KaggleOutcomes(rows: seq<KaggleRow>, validIds: set<int>, keywords: map<int, seq<string>>,
                          yearOf: string -> Option<string>): (r: seq<KaggleOutcome>)
    ensures |r| == |rows|
    decreases |rows|
  {
    if rows == [] then []
    else KaggleOutcomes(rows[..|rows| - 1], validIds, keywords, yearOf) +
         [CleanKaggleRow(rows[|rows| - 1], validIds, keywords, yearOf)]
  }

  lemma {:induction false} KaggleOutcomesAt(rows: seq<KaggleRow>, validIds: set<int>,
                                            keywords: map<int, seq<string>>,
                                            yearOf: string -> Option<string>, k: nat)
    requires k < |rows|
    ensures KaggleOutcomes(rows, validIds, keywords, yearOf)[k] == CleanKaggleRow(rows[k], validIds, keywords, yearOf)
    decreases |rows|
  {
    if k < |rows| - 1 {
      KaggleOutcomesAt(rows[..|rows| - 1], validIds, keywords, yearOf, k);
    }
  }

  /** The records of a list of outcomes, in order; `None` once one stops the script. */
  function Gather(outs: seq<KaggleOutcome>): Option<seq<MergedMovie>>
    decreases |outs|
  {
    if outs == [] then Some([])
    else
      var before := Gather(outs[..|outs| - 1]);
      match outs[|outs| - 1]
      case Aborted => None
      case Skipped => before
      case Kept(m) => if before.Some? then Some(before.value + [m]) else None
  }

  lemma {:induction false} GatherSpec(outs: seq<KaggleOutcome>)
    ensures Gather(outs).None? <==> exists i :: 0 <= i < |outs| && outs[i].Aborted?
    ensures Gather(outs).Some? ==>
              forall m :: m in Gather(outs).value <==> exists i :: 0 <= i < |outs| && outs[i] == Kept(m)
    decreases |outs|
  {
    if outs != [] {
      var n := |outs| - 1;
      var init := outs[..n];
      GatherSpec(init);
      assert forall i :: 0 <= i < n ==> init[i] == outs[i];
      if Gather(outs).Some? {
        forall m ensures m in Gather(outs).value <==> exists i :: 0 <= i < |outs| && outs[i] == Kept(m) {
          if exists i :: 0 <= i < |outs| && outs[i] == Kept(m) {
            var i :| 0 <= i < |outs| && outs[i] == Kept(m);
            if i < n {
              assert init[i] == Kept(m);
            }
          }
        }
      }
    }
  }

  lemma {:induction false} KaggleMoviesGather(rows: seq<KaggleRow>, validIds: set<int>,
                                              keywords: map<int, seq<string>>,
                                              yearOf: string -> Option<string>)
    ensures KaggleMovies(rows, validIds, keywords, yearOf) == Gather(KaggleOutcomes(rows, validIds, keywords, yearOf))
    decreases |rows|
  {
    if rows != [] {
      var n := |rows| - 1;
      KaggleMoviesGather(rows[..n], validIds, keywords, yearOf);
      var outs := KaggleOutcomes(rows, validIds, keywords, yearOf);
      assert outs[..n] == KaggleOutcomes(rows[..n], validIds, keywords, yearOf);
    }
  }

  /** The script stops exactly when some row reaches the rating conversion
      with a rating `float` rejects; otherwise the Kaggle records are exactly
      the records kept from the rows. */
  lemma KaggleMoviesSpec(rows: seq<KaggleRow>, validIds: set<int>, keywords: map<int, seq<string>>,
                         yearOf: string -> Option<string>)
    ensures KaggleMovies(rows, validIds, keywords, yearOf).None? <==>
              exists i :: 0 <= i < |rows| && CleanKaggleRow(rows[i], validIds, keywords, yearOf).Aborted?
    ensures KaggleMovies(rows, validIds, keywords, yearOf).Some? ==>
              forall m :: m in KaggleMovies(rows, validIds, keywords, yearOf).value <==>
                exists i :: 0 <= i < |rows| && CleanKaggleRow(rows[i], validIds, keywords, yearOf) == Kept(m)
  {
    var outs := KaggleOutcomes(rows, validIds, keywords, yearOf);
    KaggleMoviesGather(rows, validIds, keywords, yearOf);
    GatherSpec(outs);
    forall i | 0 <= i < |rows| ensures outs[i] == CleanKaggleRow(rows[i], validIds, keywords, yearOf) {
      KaggleOutcomesAt(rows, validIds, keywords, yearOf, i);
    }
  }

  /** The Kaggle loop. */
  method LoadKaggle(rows: seq<KaggleRow>, validIds: set<int>, keywords: map<int, seq<string>>,
                    yearOf: string -> Option<string>)
    returns (movies: Option<seq<MergedMovie>>)
    ensures movies == KaggleMovies(rows, validIds, keywords, yearOf)
  {
    var kaggleMovies := [];
    for i := 0 to |rows|
      invariant KaggleMovies(rows[..i], validIds, keywords, yearOf) == Some(kaggleMovies)
    {
      var row := rows[i];
      ghost var outcome := CleanKaggleRow(row, validIds, keywords, yearOf);
      KaggleStep(rows, validIds, keywords, yearOf, i);
      var tmdbId := row.id;
      if tmdbId !in validIds {
        continue;
      }
      var title := Strip(row.title);
      if title == "" || Lower(title) == "nan" {
        continue;
      }
      var year := YearOf(row.releaseDate, yearOf);
      var genres := ParseGenres(row.genres);
      var kw := if tmdbId in keywords then keywords[tmdbId] else [];
      var tags := KaggleTags(genres, kw);
      var overview := Strip(row.overview);
      if overview == "" || Lower(overview) == "nan" {
        overview := Download.NoDescription;
      }
      if row.voteAverage.Malformed? {
        assert outcome == Aborted;
        KaggleAbortSticks(rows, validIds, keywords, yearOf, i + 1);
        return None;
      }
      var rating := KaggleRating(row.voteAverage);
      var posterPath := Strip(row.posterPath);
      if posterPath == "" || Lower(posterPath) == "nan" {
        continue;
      }
      var posterUrl := PosterBase + posterPath;
      var movie := MergedMovie(None, title, year, rating,
                               if |overview| > DescriptionLength then overview[..DescriptionLength] + "..." else overview,
                               tags, posterUrl, Kaggle);
      assert outcome == Kept(movie);
      kaggleMovies := kaggleMovies + [movie];
    }
    assert rows[..|rows|] == rows;
    movies := Some(kaggleMovies);
  }

  /** A Kaggle row is kept exactly when its id is linked, its title and poster
      path are usable and its rating converts; a row with an id outside the
      links or an unusable title is skipped. A kept record has the TMDB poster
      URL, the description rule, and at most five distinct tags, all taken
      from the row's genres and the keywords of its id. */
  lemma CleanKaggleRowSpec(row: KaggleRow, validIds: set<int>, keywords: map<int, seq<string>>,
                           yearOf: string -> Option<string>)
    ensures row.id !in validIds || !Present(Strip(row.title)) ==>
              CleanKaggleRow(row, validIds, keywords, yearOf) == Skipped
    ensures CleanKaggleRow(row, validIds, keywords, yearOf) == Aborted <==>
              row.id in validIds && Present(Strip(row.title)) && row.voteAverage.Malformed?
    ensures CleanKaggleRow(row, validIds, keywords, yearOf).Kept? <==>
              row.id in validIds && Present(Strip(row.title)) && !row.voteAverage.Malformed? &&
              Present(Strip(row.posterPath))
    ensures CleanKaggleRow(row, validIds, keywords, yearOf).Kept? ==>
              var m := CleanKaggleRow(row, validIds, keywords, yearOf).movie;
              && m.id.None? && m.title == Strip(row.title) && m.source == Kaggle
              && m.poster == PosterBase + Strip(row.posterPath)
              && m.description == Description(row.overview)
              && m.tags == KaggleTags(ParseGenres(row.genres), LookupKeywords(keywords, row.id))
              && |m.tags| <= TagLimit && NoDup(m.tags)
              && (forall t :: t in m.tags ==>
                    t in ParseGenres(row.genres) || (row.id in keywords && t in keywords[row.id]))
              && |m.tags| == Min(|set t | t in ParseGenres(row.genres) + LookupKeywords(keywords, row.id)|, TagLimit)
  {
    KaggleTagsCount(ParseGenres(row.genres), LookupKeywords(keywords, row.id));
  }

  // ----- Concatenation and numbering -----

  /** The list with record `i` given the id `i + 1`. */
  function Numbered(s: seq<MergedMovie>): (r: seq<MergedMovie>)
    ensures |r| == |s|
    decreases |s|
  {
    if s == [] then [] else Numbered(s[..|s| - 1]) + [s[|s| - 1].(id := Some(|s|))]
  }

  /** Numbering changes only the ids, and the ids are exactly 1..n in list order. */
  lemma {:induction false} NumberedSpec(s: seq<MergedMovie>)
    ensures forall i :: 0 <= i < |s| ==> Numbered(s)[i] == s[i].(id := Some(i + 1))
    decreases |s|
  {
    if s != [] {
      NumberedSpec(s[..|s| - 1]);
    }
  }

  /** `for idx, movie in enumerate(combined_movies, start=1): movie["id"] = idx`,
      on the list's records in place. */
  method Renumber(a: array<MergedMovie>)
    modifies a
    ensures a[..] == Numbered(old(a[..]))
  {
    NumberedSpec(old(a[..]));
    for idx := 0 to a.Length
      invariant forall i :: 0 <= i < idx ==> a[i] == old(a[i]).(id := Some(i + 1))
      invariant forall i :: idx <= i < a.Length ==> a[i] == old(a[i])
    {
      a[idx] := a[idx].(id := Some(idx + 1));
    }
  }

  /** The script: both loops, the keyword map, the links id set, the
      concatenation and the numbering. `None` when the Kaggle loop stops it. */
  method MergeMovies(hfRows: seq<HfRow>, metadataRows: seq<KaggleRow>, keywordRows: seq<KeywordRow>,
                     linkIds: seq<int>, yearOf: string -> Option<string>)
    returns (combined: Option<seq<MergedMovie>>)
    ensures var kaggle := KaggleMovies(metadataRows, (set x | x in linkIds), KeywordMap(keywordRows), yearOf);
      combined == if kaggle.Some? then Some(Numbered(HfMovies(hfRows, yearOf) + kaggle.value)) else None
  {
    var huggingfaceMovies := LoadHuggingFace(hfRows, yearOf);
    var tmdbToKeywords := BuildKeywordMap(keywordRows);
    var validTmdbIds := set x | x in linkIds;
    var kaggleMovies := LoadKaggle(metadataRows, validTmdbIds, tmdbToKeywords, yearOf);
    if kaggleMovies.None? {
      return None;
    }
    var combinedMovies := huggingfaceMovies + kaggleMovies.value;
    var a := new MergedMovie[|combinedMovies|](i requires 0 <= i < |combinedMovies| => combinedMovies[i]);
    assert a[..] == combinedMovies;
    Renumber(a);
    combined := Some(a[..]);
  }

  /** The combined list is the HuggingFace records followed by the Kaggle
      records, each unchanged but for its id, and the ids run 1..n. */
  lemma CombinedSpec(hf: seq<MergedMovie>, kaggle: seq<MergedMovie>)
    ensures |Numbered(hf + kaggle)| == |hf| + |kaggle|
    ensures forall i :: 0 <= i < |hf| ==> Numbered(hf + kaggle)[i] == hf[i].(id := Some(i + 1))
    ensures forall i :: 0 <= i < |kaggle| ==>
              Numbered(hf + kaggle)[|hf| + i] == kaggle[i].(id := Some(|hf| + i + 1))
    ensures forall i :: 0 <= i < |hf| + |kaggle| ==> Numbered(hf + kaggle)[i].id == Some(i + 1)
  {
    NumberedSpec(hf + kaggle);
    assert forall i :: 0 <= i < |kaggle| ==> (hf + kaggle)[|hf| + i] == kaggle[i];
  }
}
