/** The record cleaning of the dataset downloader: raw CSV rows become movie
    records (`process_movies_data`), the records become the website catalog
    and its 50-movie sample (`save_movies_json`), and the tags are counted
    (`generate_stats`). */
module Download {
  import opened Seqs
  import opened Text
  import opened Catalog

  /** A numeric cell as pandas hands it over: a number (a rating in tenths,
      or a count), NaN, or a value that `float` / `int` rejects. */
  datatype NumCell = Number(value: int) | Missing | Malformed

  /** One row of the raw CSV. Text cells hold `str(cell)`, so a missing
      value reads "nan"; a missing column reads "". */
  datatype Row = Row(
    title: string, genre: string, releaseDate: string, voteAverage: NumCell,
    overview: string, posterUrl: string, voteCount: NumCell)

  /** A record of `movies_raw`: the fields `process_movies_data` builds. */
  datatype Record = Record(
    id: int, title: string, year: string, rating: int, description: string,
    tags: seq<string>, poster: Option<string>, releaseDate: Option<string>, voteCount: int)

  const NoDescription := "No description available."
  const Unknown := "Unknown"

  // ----- process_movies_data -----

  /** The genre cell: stripped, "nan" read as "Unknown", split on commas,
      each piece stripped, empty pieces dropped. */
  function ParseGenres(cell: string): seq<string> {
    var s := Strip(cell);
    StrippedNonEmpty(Split(if s == "nan" then Unknown else s, ','))
  }

  /** No tag is empty, none has surrounding whitespace, and none holds a comma. */
  lemma ParseGenresClean(cell: string)
    ensures forall t :: t in ParseGenres(cell) ==> t != "" && Strip(t) == t && ',' !in t
  {
    var s := Strip(cell);
    SplitStrippedClean(if s == "nan" then Unknown else s, ',');
  }

  /** A missing genre cell gives the single tag "Unknown". */
  lemma ParseGenresMissing(cell: string)
    requires Strip(cell) == "nan"
    ensures ParseGenres(cell) == [Unknown]
  {
    SplitWithoutSep(Unknown, ',');
    StripNoOp(Unknown);
    assert StrippedNonEmpty([Unknown]) == [Unknown];
  }

  /** The release year: "Unknown" for a missing date or one `pd.to_datetime`
      cannot read; `yearOf` stands for that call. */
  function YearOf(releaseDate: string, yearOf: string -> Option<string>): string {
    if releaseDate == "nan" then Unknown else yearOf(releaseDate).GetOr(Unknown)
  }

  /** What `process_movies_data` makes of the row at `index`: nothing when the
      title is empty or "nan", or when a numeric cell makes `float` / `int`
      raise (the row is skipped by the `except`). */
  function CleanRow(row: Row, index: nat, yearOf: string -> Option<string>): (r: Option<Record>)
    ensures r.Some? ==> r.value.id == index + 1
  {
    var title := Strip(row.title);
    if title == "" || title == "nan" || row.voteAverage.Malformed? || row.voteCount.Malformed? then None
    else
      var releaseDate := Strip(row.releaseDate);
      var overview := Strip(row.overview);
      var poster := Strip(row.posterUrl);
      Some(Record(
        index + 1,
        title,
        YearOf(releaseDate, yearOf),
        if row.voteAverage.Number? then row.voteAverage.value else 0,
        if overview == "nan" then NoDescription else overview,
        ParseGenres(row.genre),
        if poster == "nan" || poster == "" then None else Some(poster),
        if releaseDate == "nan" then None else Some(releaseDate),
        if row.voteCount.Number? then row.voteCount.value else 0))
  }

  /** A row is kept exactly when its stripped title is usable and both numeric
      cells convert; a missing rating or vote count becomes 0, a "nan"
      overview the default text, and a "nan" or empty poster no poster. */
  lemma CleanRowSpec(row: Row, index: nat, yearOf: string -> Option<string>)
    ensures CleanRow(row, index, yearOf).Some? <==>
              Strip(row.title) != "" && Strip(row.title) != "nan" &&
              !row.voteAverage.Malformed? && !row.voteCount.Malformed?
    ensures CleanRow(row, index, yearOf).Some? ==>
              var m := CleanRow(row, index, yearOf).value;
              && m.title == Strip(row.title)
              && m.rating == (if row.voteAverage.Missing? then 0 else row.voteAverage.value)
              && m.voteCount == (if row.voteCount.Missing? then 0 else row.voteCount.value)
              && (Strip(row.overview) == "nan" ==> m.description == NoDescription)
              && (Strip(row.overview) != "nan" ==> m.description == Strip(row.overview))
              && m.tags == ParseGenres(row.genre)
              && (m.poster.None? <==> Strip(row.posterUrl) == "" || Strip(row.posterUrl) == "nan")
              && (m.poster.Some? ==> m.poster.value == Strip(row.posterUrl))
              && (Strip(row.releaseDate) == "nan" ==> m.year == Unknown && m.releaseDate.None?)
  {
  }

  function OptionToSeq<T>(o: Option<T>): seq<T> {
    if o.Some? then [o.value] else []
  }

  /** What `CleanRow` makes of each row, in row order. */
  function Outcomes(rows: seq<Row>, yearOf: string -> Option<string>): (r: seq<Option<Record>>)
    ensures |r| == |rows|
    decreases |rows|
  {
    if rows == [] then []
    else Outcomes(rows[..|rows| - 1], yearOf) + [CleanRow(rows[|rows| - 1], |rows| - 1, yearOf)]
  }

  lemma {:induction false} OutcomesAt(rows: seq<Row>, yearOf: string -> Option<string>, k: nat)
    requires k < |rows|
    ensures Outcomes(rows, yearOf)[k] == CleanRow(rows[k], k, yearOf)
    decreases |rows|
  {
    if k < |rows| - 1 {
      OutcomesAt(rows[..|rows| - 1], yearOf, k);
    }
  }

  /** The records among the outcomes, in order. */
  function Kept(outs: seq<Option<Record>>): seq<Record>
    decreases |outs|
  {
    if outs == [] then [] else Kept(outs[..|outs| - 1]) + OptionToSeq(outs[|outs| - 1])
  }

  /** The records `process_movies_data` makes of the rows, in row order. */
  function Processed(rows: seq<Row>, yearOf: string -> Option<string>): seq<Record> {
    Kept(Outcomes(rows, yearOf))
  }

  /** `process_movies_data` on the rows of the CSV. */
  method ProcessMoviesData(rows: seq<Row>, yearOf: string -> Option<string>) returns (movies: seq<Record>)
    ensures movies == Processed(rows, yearOf)
  {
    movies := [];
    for index := 0 to |rows|
      invariant movies == Processed(rows[..index], yearOf)
    {
      var row := rows[index];
      ghost var cleaned := CleanRow(row, index, yearOf);
      ghost var outs := Outcomes(rows[..index], yearOf);
      assert rows[..index + 1][..index] == rows[..index];
      assert Outcomes(rows[..index + 1], yearOf) == outs + [cleaned];
      assert (outs + [cleaned])[..|outs|] == outs;
      assert Processed(rows[..index + 1], yearOf) == movies + OptionToSeq(cleaned);
      var title := Strip(row.title);
      if title == "" || title == "nan" {
        continue;
      }
      var genresStr := Strip(row.genre);
      if genresStr == "nan" {
        genresStr := Unknown;
      }
      var genres := StrippedNonEmpty(Split(genresStr, ','));
      var releaseDate := Strip(row.releaseDate);
      var year;
      if releaseDate == "nan" {
        year := Unknown;
      } else {
        year := yearOf(releaseDate).GetOr(Unknown);
      }
      var rating;
      match row.voteAverage {
        case Missing => rating := 0;
        case Number(v) => rating := v;
        case Malformed => continue;
      }
      var overview := Strip(row.overview);
      if overview == "nan" {
        overview := NoDescription;
      }
      var posterUrl: Option<string> := Some(Strip(row.posterUrl));
      if posterUrl.value == "nan" || posterUrl.value == "" {
        posterUrl := None;
      }
      var voteCount;
      match row.voteCount {
        case Number(v) => voteCount := v;
        case Missing => voteCount := 0;
        case Malformed => continue;
      }
      var movie := Record(index + 1, title, year, rating, overview, genres, posterUrl,
                          if releaseDate != "nan" then Some(releaseDate) else None, voteCount);
      assert movie == cleaned.value;
      movies := movies + [movie];
    }
    assert rows[..|rows|] == rows;
  }

  /** Every outcome that is a record carries the id of its position, from 1. */
  ghost predicate IdsFollowPositions(outs: seq<Option<Record>>) {
    forall k :: 0 <= k < |outs| && outs[k].Some? ==> outs[k].value.id == k + 1
  }

  /** Some record carries the id. */
  predicate HasId(s: seq<Record>, id: int) {
    exists i :: 0 <= i < |s| && s[i].id == id
  }

  lemma HasIdConcat(a: seq<Record>, b: seq<Record>, id: int)
    ensures HasId(a + b, id) <==> HasId(a, id) || HasId(b, id)
  {
    if HasId(a + b, id) {
      var i :| 0 <= i < |a + b| && (a + b)[i].id == id;
      if i < |a| {
        assert a[i] == (a + b)[i];
      } else {
        assert b[i - |a|] == (a + b)[i];
      }
    }
    if HasId(a, id) {
      var i :| 0 <= i < |a| && a[i].id == id;
      assert (a + b)[i] == a[i];
    }
    if HasId(b, id) {
      var i :| 0 <= i < |b| && b[i].id == id;
      assert (a + b)[|a| + i] == b[i];
    }
  }

  lemma {:induction false} KeptIds(outs: seq<Option<Record>>)
    requires IdsFollowPositions(outs)
    ensures forall i :: 0 <= i < |Kept(outs)| ==> 1 <= Kept(outs)[i].id <= |outs|
    ensures forall i, j :: 0 <= i < j < |Kept(outs)| ==> Kept(outs)[i].id < Kept(outs)[j].id
    decreases |outs|
  {
    if outs != [] {
      var init := outs[..|outs| - 1];
      assert IdsFollowPositions(init) by {
        forall k | 0 <= k < |init| && init[k].Some? ensures init[k].value.id == k + 1 {
          assert init[k] == outs[k];
        }
      }
      KeptIds(init);
    }
  }

  lemma {:induction false} KeptExact(outs: seq<Option<Record>>, k: nat)
    requires IdsFollowPositions(outs) && k < |outs|
    ensures HasId(Kept(outs), k + 1) <==> outs[k].Some?
    ensures forall i :: 0 <= i < |Kept(outs)| && Kept(outs)[i].id == k + 1 ==> Kept(outs)[i] == outs[k].value
    decreases |outs|
  {
    var init := outs[..|outs| - 1];
    var p := Kept(init);
    var last := OptionToSeq(outs[|outs| - 1]);
    assert Kept(outs) == p + last;
    assert last != [] ==> last[0].id == |outs|;
    assert IdsFollowPositions(init) by {
      forall j | 0 <= j < |init| && init[j].Some? ensures init[j].value.id == j + 1 {
        assert init[j] == outs[j];
      }
    }
    HasIdConcat(p, last, k + 1);
    KeptIds(init);
    if k < |outs| - 1 {
      KeptExact(init, k);
      assert init[k] == outs[k];
      assert !HasId(last, k + 1);
    } else {
      assert !HasId(p, k + 1);
    }
  }

  lemma {:induction false} KeptMembers(outs: seq<Option<Record>>)
    ensures forall r :: r in Kept(outs) <==> Some(r) in outs
    decreases |outs|
  {
    if outs != [] {
      var init := outs[..|outs| - 1];
      KeptMembers(init);
      assert outs == init + [outs[|outs| - 1]];
    }
  }

  lemma OutcomesIds(rows: seq<Row>, yearOf: string -> Option<string>)
    ensures IdsFollowPositions(Outcomes(rows, yearOf))
  {
    forall k | 0 <= k < |rows| && Outcomes(rows, yearOf)[k].Some?
      ensures Outcomes(rows, yearOf)[k].value.id == k + 1
    {
      OutcomesAt(rows, yearOf, k);
    }
  }

  /** Each row contributes at most its own record, the one with id `index + 1`;
      so ids are strictly increasing and lie in 1..|rows|. */
  lemma ProcessedIds(rows: seq<Row>, yearOf: string -> Option<string>)
    ensures forall i :: 0 <= i < |Processed(rows, yearOf)| ==> 1 <= Processed(rows, yearOf)[i].id <= |rows|
    ensures forall i, j :: 0 <= i < j < |Processed(rows, yearOf)| ==>
              Processed(rows, yearOf)[i].id < Processed(rows, yearOf)[j].id
  {
    OutcomesIds(rows, yearOf);
    KeptIds(Outcomes(rows, yearOf));
  }

  /** A row yields a record exactly when `CleanRow` accepts it, and the record
      with id `k + 1` is what `CleanRow` makes of row `k`. */
  lemma ProcessedExact(rows: seq<Row>, yearOf: string -> Option<string>, k: nat)
    requires k < |rows|
    ensures HasId(Processed(rows, yearOf), k + 1) <==> CleanRow(rows[k], k, yearOf).Some?
    ensures forall i :: 0 <= i < |Processed(rows, yearOf)| && Processed(rows, yearOf)[i].id == k + 1 ==>
              Processed(rows, yearOf)[i] == CleanRow(rows[k], k, yearOf).value
  {
    OutcomesIds(rows, yearOf);
    OutcomesAt(rows, yearOf, k);
    KeptExact(Outcomes(rows, yearOf), k);
  }

  /** Every record has a non-empty, stripped title other than "nan", and
      clean tags. */
  lemma ProcessedFields(rows: seq<Row>, yearOf: string -> Option<string>)
    ensures forall r :: r in Processed(rows, yearOf) ==>
              r.title != "" && r.title != "nan" && Strip(r.title) == r.title &&
              forall t :: t in r.tags ==> t != "" && ',' !in t
  {
    var outs := Outcomes(rows, yearOf);
    KeptMembers(outs);
    forall r | r in Processed(rows, yearOf)
      ensures r.title != "" && r.title != "nan" && Strip(r.title) == r.title
      ensures forall t :: t in r.tags ==> t != "" && ',' !in t
    {
      var k :| 0 <= k < |outs| && outs[k] == Some(r);
      OutcomesAt(rows, yearOf, k);
      StripIdempotent(rows[k].title);
      ParseGenresClean(rows[k].genre);
    }
  }

  // ----- save_movies_json -----

  const WebsiteDescriptionLength: nat := 200
  const WebsiteTags: nat := 5
  const SampleSize: nat := 50

  /** `movie['poster'] and movie['rating'] > 0`. */
  predicate Qualifies(m: Record) {
    m.poster.Some? && m.poster.value != "" && m.rating > 0
  }

  /** The website form of a record. */
  function ToWebsite(m: Record): (w: Movie)
    ensures w.id == m.id && w.title == m.title && w.year == m.year && w.rating == m.rating
    ensures |m.description| <= WebsiteDescriptionLength ==> w.description == m.description
    ensures |m.description| > WebsiteDescriptionLength ==>
              w.description == m.description[..WebsiteDescriptionLength] + "..."
    ensures |w.description| <= WebsiteDescriptionLength + 3
    ensures |w.tags| == Min(|m.tags|, WebsiteTags) && w.tags == m.tags[..|w.tags|]
  {
    Movie(m.id, m.title, m.year, m.rating,
          Ellipsize(m.description, WebsiteDescriptionLength),
          m.tags[..Min(|m.tags|, WebsiteTags)],
          m.poster.GetOr(""))
  }

  /** `save_movies_json`: the website catalog and its sample file. */
  method SaveMoviesJson(movies: seq<Record>) returns (website: seq<Movie>, sample: seq<Movie>)
    ensures website == Map(Filter(movies, Qualifies), ToWebsite)
    ensures sample == website[..Min(SampleSize, |website|)]
  {
    website := [];
    for i := 0 to |movies|
      invariant website == Map(Filter(movies[..i], Qualifies), ToWebsite)
    {
      var movie := movies[i];
      assert movies[..i + 1] == movies[..i] + [movie];
      WebsiteStep(movies[..i], movie);
      if movie.poster.Some? && movie.poster.value != "" && movie.rating > 0 {
        var websiteMovie := Movie(movie.id, movie.title, movie.year, movie.rating,
                                  if |movie.description| > WebsiteDescriptionLength
                                  then movie.description[..WebsiteDescriptionLength] + "..."
                                  else movie.description,
                                  movie.tags[..Min(|movie.tags|, WebsiteTags)],
                                  movie.poster.value);
        assert websiteMovie == ToWebsite(movie);
        website := website + [websiteMovie];
      }
    }
    assert movies[..|movies|] == movies;
    sample := website[..Min(SampleSize, |website|)];
  }

  /** One more record adds its website form exactly when it qualifies. */
  lemma WebsiteStep(prefix: seq<Record>, m: Record)
    ensures Map(Filter(prefix + [m], Qualifies), ToWebsite) ==
            Map(Filter(prefix, Qualifies), ToWebsite) + (if Qualifies(m) then [ToWebsite(m)] else [])
  {
    FilterConcat(prefix, [m], Qualifies);
    MapConcat(Filter(prefix, Qualifies), Filter([m], Qualifies), ToWebsite);
    assert Filter([m], Qualifies) == if Qualifies(m) then [m] else [];
  }

  /** The website keeps exactly the records with a poster and a positive
      rating, in their order. */
  lemma WebsiteMembers(movies: seq<Record>)
    ensures forall w :: w in Map(Filter(movies, Qualifies), ToWebsite) <==>
              exists m :: m in movies && Qualifies(m) && w == ToWebsite(m)
    ensures IsSubsequence(Filter(movies, Qualifies), movies)
  {
    var f := Filter(movies, Qualifies);
    FilterMembers(movies, Qualifies);
    FilterIsSubsequence(movies, Qualifies);
    var w := Map(f, ToWebsite);
    forall x | x in w ensures exists m :: m in movies && Qualifies(m) && x == ToWebsite(m) {
      var i :| 0 <= i < |w| && w[i] == x;
      assert f[i] in f;
    }
    forall m | m in movies && Qualifies(m) ensures ToWebsite(m) in w {
      var i :| 0 <= i < |f| && f[i] == m;
      assert w[i] == ToWebsite(m);
    }
  }

  /** Every website movie has a poster, a positive rating, a description of at
      most 203 characters and at most five tags. */
  lemma WebsiteFields(movies: seq<Record>)
    ensures forall w :: w in Map(Filter(movies, Qualifies), ToWebsite) ==>
              w.poster != "" && w.rating > 0 && |w.description| <= WebsiteDescriptionLength + 3 &&
              |w.tags| <= WebsiteTags
  {
    var f := Filter(movies, Qualifies);
    FilterMembers(movies, Qualifies);
    var w := Map(f, ToWebsite);
    forall x | x in w
      ensures x.poster != "" && x.rating > 0 && |x.description| <= WebsiteDescriptionLength + 3
      ensures |x.tags| <= WebsiteTags
    {
      var i :| 0 <= i < |w| && w[i] == x;
      assert f[i] in f;
    }
  }

  // ----- generate_stats: genre counts -----

  /** `all_genres`: every tag of every movie, in order. */
  function AllTags(movies: seq<Record>): seq<string>
    decreases |movies|
  {
    if movies == [] then [] else AllTags(movies[..|movies| - 1]) + movies[|movies| - 1].tags
  }

  /** `counts` holds, for every genre of `all` and no other, how often it occurs. */
  ghost predicate CountsOf(counts: map<string, int>, all: seq<string>) {
    && (forall g :: g in counts <==> g in all)
    && (forall g :: g in counts ==> counts[g] == multiset(all)[g])
  }

  /** `genre_counts[genre] = genre_counts.get(genre, 0) + 1` keeps the counts
      right for one more tag. */
  lemma CountStep(counts: map<string, int>, all: seq<string>, genre: string)
    requires CountsOf(counts, all)
    ensures CountsOf(counts[genre := (if genre in counts then counts[genre] else 0) + 1], all + [genre])
  {
    assert multiset(all + [genre]) == multiset(all) + multiset{genre};
  }

  /** The two loops of the genre distribution: gather the tags, then count
      them in a dictionary. */
  method CountGenres(movies: seq<Record>) returns (allGenres: seq<string>, genreCounts: map<string, int>)
    ensures allGenres == AllTags(movies)
    ensures CountsOf(genreCounts, allGenres)
  {
    allGenres := [];
    for i := 0 to |movies|
      invariant allGenres == AllTags(movies[..i])
    {
      assert movies[..i + 1][..i] == movies[..i];
      allGenres := allGenres + movies[i].tags;
    }
    assert movies[..|movies|] == movies;
    genreCounts := map[];
    for i := 0 to |allGenres|
      invariant CountsOf(genreCounts, allGenres[..i])
    {
      var genre := allGenres[i];
      assert allGenres[..i + 1] == allGenres[..i] + [genre];
      CountStep(genreCounts, allGenres[..i], genre);
      genreCounts := genreCounts[genre := (if genre in genreCounts then genreCounts[genre] else 0) + 1];
    }
    assert allGenres[..|allGenres|] == allGenres;
  }

  /** The sum of `counts[k]` over the keys `keys`. */
  function SumCounts(keys: seq<string>, counts: multiset<string>): int {
    if keys == [] then 0 else counts[keys[0]] + SumCounts(keys[1..], counts)
  }

  lemma {:induction false} SumCountsAppend(keys: seq<string>, x: string, counts: multiset<string>)
    ensures SumCounts(keys + [x], counts) == SumCounts(keys, counts) + counts[x]
  {
    if keys != [] {
      assert (keys + [x])[1..] == keys[1..] + [x];
      SumCountsAppend(keys[1..], x, counts);
    }
  }

  lemma {:induction false} SumCountsAdd(keys: seq<string>, x: string, counts: multiset<string>)
    requires NoDup(keys)
    ensures SumCounts(keys, counts + multiset{x}) == SumCounts(keys, counts) + (if x in keys then 1 else 0)
  {
    if keys != [] {
      SumCountsAdd(keys[1..], x, counts);
      assert x in keys <==> x == keys[0] || x in keys[1..];
    }
  }

  /** The counts, taken over the distinct genres in order of first appearance
      (the dictionary's key order), add up to the number of tags. */
  lemma {:induction false} GenreCountsSum(all: seq<string>)
    ensures SumCounts(Dedup(all), multiset(all)) == |all|
    decreases |all|
  {
    if all != [] {
      var t := all[..|all| - 1];
      var x := all[|all| - 1];
      assert all == t + [x];
      GenreCountsSum(t);
      DedupNoDup(t);
      DedupMembers(t);
      SumCountsAdd(Dedup(t), x, multiset(t));
      if x !in Dedup(t) {
        SumCountsAppend(Dedup(t), x, multiset(all));
      }
    }
  }
}
