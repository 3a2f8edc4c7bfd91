# MovieMatch in Dafny

A model of the decision logic of MovieMatch, a movie recommender that runs
in the browser. It has three parts.

**The front end (`script.js`).**
- The mood-to-genre lexicon and the local keyword classifier (`analyzeMood`).
- The choice between a remote mood classifier and that fallback (`getGenresFromAI`).
- The genre filter, the title search and "show all", each followed by the sort on rating.
- The genre chips derived from the catalog and the selected-genre list.
- Paging with "Load More".
- The card and star helpers of the display.
- The handlers the user triggers. These are methods of a class `App.AppState`, whose fields are the script's globals.

**The dataset downloader (`download_movies.py`).**
- The per-row cleaning of `process_movies_data`.
- The website filter, truncation and sample of `save_movies_json`.
- The genre counting of `generate_stats`.

**The merge script (`merge_movies.py`).**
- The HuggingFace and Kaggle cleaning loops.
- The keyword map.
- The concatenation of the two lists and the id renumbering, done in place on an array.

Modules follow the program:
- `Seqs` and `Text`: sequence and string helpers (filter, de-duplication, strip, lowercase, substring, split).
- `Catalog`: the catalog record, the curated genres and the chip derivation.
- `Mood`: the lexicon and the classifier.
- `Ranking`: the stable sort and the three filters.
- `Paging`: pages and "Load More".
- `Cards`: the chips cap, the card and the stars.
- `App`: the front-end state and its handlers.
- `Download`: `download_movies.py`.
- `Merge`: `merge_movies.py`.

**Conventions of the model.**
- Ratings are integers in tenths: 8.3 is 83. The data is rounded to one decimal, and the code only compares ratings, tests `> 0` and takes the floor of the value.
- The JavaScript sort is modelled by `Ranking.SortByRating`. Its result is proved sorted, a permutation of its input and stable, and those three properties leave only one possible order (`Ranking.RankedUnique`).
- The order of a JS `Set` and of a Python dict's keys is first occurrence (`Seqs.Dedup`).
- A Python `str(NaN)` cell is the text "nan".
- Calls the model cannot see are parameters:
  - `pd.to_datetime` is `yearOf`;
  - the remote classifier is an `AiOutcome`;
  - the fetched catalog is an `Option`.

Where the code departs from what its names and tables suggest, the model follows the code:
- The trigger "excited" fires the happy list. The lexicon's `excited` and `nostalgic` lists are never used (`Mood.MoodGenresNeverExcited`).
- The remote classifier's genre list is used as it arrives, in order and not de-duplicated (`Mood.GetGenresFromAI`). An empty remote list therefore lists the whole catalog.
- "Load More" replaces the shown page by the next one rather than appending to it (`App.AppState.LoadMore`).
- Toggling a selected genre twice keeps the same genres but moves it to the end (`App.ToggleTwicePresent`). Only the membership of the selection matters to the filter (`App.FilterBySameGenres`).
- The detail view draws `floor(rating)` filled stars on the ten-point scale, so a rating of 6.0 or more gives more than five stars, all filled (`Cards.StarsAboveSix`). A negative rating makes `repeat` throw, and the detail view is not drawn (`Cards.Stars` answers `None`).
- The star literals of the detail view are mis-encoded: each is the three characters that the UTF-8 bytes of ★ or ☆ give when read as Windows-1252 ("â˜…", "â˜†"). The model draws those literals, so a star line is three characters per star (`Cards.Stars`, `Cards.StarsBlocks`).
- The "Show More Genres" button is never drawn: the chips come from the 16 curated genres and the cap is 20 (`Cards.AvailableGenresFit`). Its click handler is dead code, so `genresExpanded` stays false (`App.AppState.Valid`).
- The two dataset scripts treat missing values differently:
  - A "nan" genre cell gives `["Unknown"]` in the downloader (`Download.ParseGenresMissing`). In the merge script it gives the tag "nan".
  - The downloader replaces only an overview that reads exactly "nan". The merge script also replaces an empty overview and "nan" in any case.
  - A missing rating becomes 0 in the downloader. In the merge script it stays NaN, modelled as `None`.
  - An unreadable date gives "Unknown" in the downloader. In the merge script it gives "nan", since `errors='coerce'` yields NaT.
- In the merge script, a Kaggle `vote_average` that `float` rejects is not caught, so the script stops. `Merge.MergeMovies` answers `None` then.

## Model

| member | source | states |
|---|---|---|
| `Text.StripShape` | script.js:226 | `trim`/`strip` removes exactly the surrounding whitespace: the result is a slice of the input with only whitespace around it, and it neither starts nor ends with whitespace |
| `Text.StripEmpty` | script.js:227 | a trimmed input is empty exactly when the input is all whitespace (the guard `!moodText`) |
| `Text.Lower` | script.js:287 | lowercasing keeps the length and maps every character on its own |
| `Text.SplitJoin` | download_movies.py:61 | `split(',')` loses nothing: joining the pieces with the separator gives the input back, and no piece holds the separator |
| `Text.StrippedNonEmpty` | download_movies.py:61 | the pieces kept are exactly the non-empty stripped pieces of the input, each stripped |
| `Text.StrippedNonEmptyOrder` | download_movies.py:61 | the comprehension strips every piece and keeps the non-empty results, in order and with their repetitions |
| `Text.Ellipsize` | download_movies.py:133 | a text longer than the limit becomes its first `n` characters plus "..."; a shorter one is unchanged; at most `n + 3` characters |
| `Catalog.AvailableGenres` | script.js:101 | `popularGenres.filter(g => allGenres.has(g))`: the curated genres kept in curated order, each exactly when some movie has it as an exact tag; its properties are `Catalog.AvailableGenresSpec`, `Catalog.AvailableGenresNoDup` and `Cards.AvailableGenresFit` |
| `Catalog.DeriveGenres` | script.js:95-101 | the Set-building loops followed by the curated filter give exactly `AvailableGenres` |
| `Catalog.AvailableGenresSpec` | script.js:101 | the chips keep curated order (a subsequence of `popularGenres`) and hold a curated genre exactly when some movie has it as an exact tag |
| `Catalog.AvailableGenresNoDup` | script.js:11-13 | no chip appears twice |
| `Mood.PushIf` | script.js:291-293 | one conditional `push(...list)` appends the list exactly when the group fires |
| `Mood.RemoveDuplicates` | script.js:321 | `[...new Set(xs)]` is the first-occurrence de-duplication of `xs` |
| `Mood.MoodGenres` | script.js:286-322 | the keyword classifier: the lists of the groups whose triggers occur in the lowercased mood, in group order, or the happy list when none fires, de-duplicated by first occurrence; its properties are the `Mood.MoodGenres*` lemmas |
| `Mood.AnalyzeMood` | script.js:286-322 | the pushes, the fallback and the de-duplication compute `MoodGenres(moodText)` |
| `Mood.AnalyzeMoodSteps` | script.js:287-319 | the eight trigger tests and conditional pushes, in code order, build the concatenation of the triggered groups' lists |
| `Mood.TriggeredGroup0` | script.js:291 | the happy group fires on "happy", "joy", "excited" or "good" |
| `Mood.TriggeredGroup1` | script.js:294 | the sad group fires on "sad", "depressed" or "down" |
| `Mood.TriggeredGroup2` | script.js:297 | the romantic group fires on "romantic", "love" or "romance" |
| `Mood.TriggeredGroup3` | script.js:300 | the mysterious group fires on "mysterious", "mystery" or "suspense" |
| `Mood.TriggeredGroup4` | script.js:303 | the dark group fires on "dark", "scary" or "horror" |
| `Mood.TriggeredGroup5` | script.js:306 | the inspired group fires on "inspired", "motivated" or "uplifting" |
| `Mood.TriggeredGroup6` | script.js:309 | the relaxed group fires on "relaxed", "calm" or "peaceful" |
| `Mood.TriggeredGroup7` | script.js:312 | the stressed group fires on "stressed", "anxious" or "worried" |
| `Mood.CollectMembers` | script.js:291-313 | a genre is collected exactly when some triggered group lists it |
| `Mood.CollectEmpty` | script.js:317 | nothing is collected exactly when no group fires |
| `Mood.MoodGenresNonEmpty` | script.js:316-321 | the classifier never answers with an empty list |
| `Mood.MoodGenresNoDup` | script.js:321 | the classifier's answer has no repetitions |
| `Mood.MoodGenresDefault` | script.js:316-319 | the fallback applies exactly when no group fires, and then the answer is the happy list exactly |
| `Mood.MoodGenresMembers` | script.js:287-321 | the answer holds exactly the genres of the triggered groups, or of the happy list when none fires |
| `Mood.MoodGenresOrder` | script.js:291-321 | the answer lists genres in order of first occurrence in the concatenated lists of the triggered groups (happy, sad, romantic, mysterious, dark, inspired, relaxed, stressed) |
| `Mood.MoodGenresHappyFirst` | script.js:291-293 | when the happy group fires, the answer opens with the whole happy list |
| `Mood.MoodGenresNeverExcited` | script.js:16-27 | Action, Science Fiction, War and Classic are never answered: the `excited` and `nostalgic` lists are unused |
| `Mood.GenreNames` | script.js:48 | `data.genres.map(item => item[0])` keeps the length and takes each pair's first component |
| `Mood.GetGenresFromAI` | script.js:30-54 | a failed remote call answers exactly the keyword classifier's list; a successful one the remote genre names, in order |
| `Ranking.SortByRating` | script.js:341 | `sort((a, b) => b.rating - a.rating)`: each movie is inserted before the first one rated lower, so ties keep their input order; `Ranking.SortByRatingRanked` and `Ranking.RankedUnique` prove it is the one stable non-increasing permutation |
| `Ranking.SortByRatingRanked` | script.js:341 | the sort on `b.rating - a.rating` is non-increasing in rating, a permutation and stable (each rating's movies keep their order) |
| `Ranking.RankedUnique` | script.js:341 | sortedness, permutation and stability together fix the result: two such rankings of one list are equal |
| `Ranking.FilterByGenres` | script.js:325-344 | `filterMoviesByGenres`: the whole catalog for an empty request, otherwise the movies with some tag whose lowercase contains some requested genre's lowercase, each then sorted on rating |
| `Ranking.FilterByGenresSpec` | script.js:325-344 | a non-empty request keeps exactly the movies with some tag whose lowercase contains the lowercase of some requested genre, each as often as in the catalog, ranked |
| `Ranking.FilterByNoGenres` | script.js:328-329 | an empty request ranks the whole catalog |
| `Ranking.SearchByTitle` | script.js:276-279 | the title search: the movies whose lowercased title contains the lowercased term, sorted on rating |
| `Ranking.SearchByTitleSpec` | script.js:276-279 | the search keeps exactly the movies whose lowercased title contains the lowercased term, each as often as in the catalog, ranked |
| `Ranking.SearchIgnoresCase` | script.js:276-278 | the result does not depend on the case of the term |
| `Ranking.ShowAll` | script.js:262 | "show all": a copy of the catalog sorted on rating |
| `Ranking.ShowAllSpec` | script.js:262 | "show all" ranks the whole catalog |
| `Paging.PageOf` | script.js:366-368 | page `p` is the slice from `(p-1)*50`, at most 50 long, empty exactly past the end, and full whenever "Load More" is offered |
| `Paging.PagesTile` | script.js:366-368 | pages 1 to `k` together are the first `min(50k, n)` results, with no gap and no overlap |
| `Paging.Reachable` | script.js:387-393 | every result is on page `i/50 + 1`, and every earlier page offers "Load More" |
| `Cards.VisibleGenres` | script.js:145-148 | collapsed, the first `min(20, n)` chips are drawn; expanded, all of them |
| `Cards.NoToggleShowsAll` | script.js:157 | with 20 chips or fewer there is no toggle button and every chip is drawn |
| `Cards.AvailableGenresFit` | script.js:157-166 | the chips of any catalog number at most the 16 curated genres, below the cap of 20, so the toggle button of line 157 is never created and every chip is drawn |
| `Cards.MakeCard` | script.js:404-425 | the card shows the title and year, or "Unknown Title" / "Unknown" exactly when they are empty, keeps the rating, shows at most 103 description characters and the first `min(3, n)` tags, with a "+N more" chip exactly past three that accounts for the rest, and an image exactly when there is a poster |
| `Cards.CardDescription` | script.js:407-422 | a missing description shows "No description available"; one over 100 characters is cut to 100 plus "..."; a shorter one is shown whole |
| `Cards.Stars` | script.js:435-437 | a negative rating makes `repeat` throw (`None`); otherwise the line holds `max(floor(rating), 5)` stars of three characters each |
| `Cards.RepeatBlock` | script.js:437 | every copy in `u.repeat(n)` of a three-character literal is that literal |
| `Cards.StarsBlocks` | script.js:435-437 | star `k` is the filled literal for `k < floor(rating)` and the empty one after, up to five stars |
| `Cards.StarsAboveSix` | script.js:435-437 | from 6.0 up the line holds `floor(rating)` stars, more than five, all filled |
| `App.Toggled` | script.js:171-179 | after a toggle, a genre is selected exactly when it was selected before, with `g` itself flipped |
| `App.ToggledNoDup` | script.js:171-179 | toggling keeps the selection free of repetitions |
| `App.ToggleTwiceAbsent` | script.js:171-179 | toggling an unselected genre twice restores the selection exactly |
| `App.ToggleTwicePresent` | script.js:171-179 | toggling a selected genre twice restores the same genres, with that genre moved to the end |
| `App.FilterBySameGenres` | script.js:331-337 | two requests naming the same genres filter alike, whatever their order |
| `App.MoodRequest` | script.js:228-237 | the genres the mood handler filters by: the remote answer's genre names when the call succeeds, the keyword classifier's list when it fails |
| `App.MoodFallbackRequest` | script.js:49-53 | on a failed remote call the mood handler filters by exactly the classifier's non-empty answer |
| `App.AppState.constructor` | script.js:2-7 | the globals start empty, on page 1, with the chips collapsed |
| `App.AppState.LoadMovies` | script.js:85-107 | the fetched catalog, or the sample one when the fetch fails, is installed and its derived genres are handed to the chips; nothing else changes |
| `App.AppState.LoadSampleMovies` | script.js:109-140 | the two sample movies are installed and their derived genres handed to the chips |
| `App.AppState.ToggleGenre` | script.js:171-179 | the selection becomes `Toggled(old, genre)`; nothing else changes |
| `App.AppState.ClearAllGenres` | script.js:347-352 | the selection becomes empty; nothing else changes |
| `App.AppState.FilterMoviesByGenres` | script.js:325-344 | the result list becomes the ranked genre selection |
| `App.AppState.ShowResults` | script.js:354-361 | every new result starts on page 1, which shows its first `min(n, 50)` movies |
| `App.AppState.LoadMore` | script.js:387-393 | offered only when results go on past the page; it moves to the next page, which shows the next non-empty slice |
| `App.AppState.GetMoodRecommendations` | script.js:225-244 | an empty trimmed mood raises the alert and changes no results; otherwise the results are the ranked filter by the remote answer or the fallback, on page 1 |
| `App.AppState.GetGenreRecommendations` | script.js:246-257 | an empty selection raises the alert and changes nothing; otherwise the results are the ranked filter by the selection, on page 1 |
| `App.AppState.ShowAllMovies` | script.js:259-266 | the results become the whole catalog ranked, on page 1 |
| `App.AppState.SearchMoviesByName` | script.js:268-283 | an empty trimmed term raises the alert and changes no results; otherwise the results are the ranked title search, on page 1 |
| `Download.ParseGenresClean` | download_movies.py:56-61 | every tag is non-empty, stripped and free of commas |
| `Download.ParseGenresMissing` | download_movies.py:56-58 | a "nan" genre cell gives exactly `["Unknown"]` |
| `Download.CleanRow` | download_movies.py:93 | a kept row's record has id `index + 1` |
| `Download.YearOf` | download_movies.py:63-71 | a "nan" date gives "Unknown"; any other date gives the year `pd.to_datetime` reads from it, or "Unknown" when it raises |
| `Download.CleanRowSpec` | download_movies.py:50-102 | a row is kept exactly when its stripped title is neither empty nor "nan" and both numeric cells convert; a missing rating or vote count becomes 0, a "nan" overview the default text, a "nan" or empty poster no poster |
| `Download.ProcessMoviesData` | download_movies.py:46-108 | the loop with its `continue`s and its `except` builds exactly `Processed(rows)` |
| `Download.ProcessedIds` | download_movies.py:93 | ids lie in 1..number of rows and strictly increase along the output |
| `Download.ProcessedExact` | download_movies.py:48-104 | row `k` produces a record exactly when the cleaning accepts it, and the record with id `k + 1` is that record |
| `Download.ProcessedFields` | download_movies.py:51-61 | every record has a stripped title other than "" and "nan", and clean tags |
| `Download.Qualifies` | download_movies.py:127 | a record reaches the website exactly when it has a non-empty poster and a rating above 0 |
| `Download.ToWebsite` | download_movies.py:128-136 | id, title, year and rating are copied; the description is the first 200 characters plus "..." when longer, else unchanged (at most 203); the tags are the first `min(5, n)` |
| `Download.SaveMoviesJson` | download_movies.py:117-150 | the website list is the website form of the qualifying records, in order; the sample is its first `min(50, n)` |
| `Download.WebsiteMembers` | download_movies.py:125-137 | the website holds exactly the website forms of the records with a poster and a positive rating, in input order |
| `Download.WebsiteFields` | download_movies.py:127-135 | every website movie has a poster, a positive rating, at most 203 description characters and at most 5 tags |
| `Download.CountStep` | download_movies.py:183-184 | one `genre_counts.get(genre, 0) + 1` keeps the counts exact |
| `Download.CountGenres` | download_movies.py:178-184 | `all_genres` is every tag of every movie in order, and each genre's count is its number of occurrences, with no other key |
| `Download.GenreCountsSum` | download_movies.py:182-184 | the counts sum to the total number of tags |
| `Merge.HfRating` | merge_movies.py:33-37 | a HuggingFace rating is the number itself, stays NaN (`None`) when missing, and becomes 0 when `float` rejects it |
| `Merge.Description` | merge_movies.py:29-31 | an empty or "nan" (any case) overview becomes the default text; the text is cut to 200 plus "..." only when longer (line 46, line 105); at most 203 |
| `Merge.CleanHfRow` | merge_movies.py:22-50 | a HuggingFace row is skipped on an unusable title or poster; otherwise its record has the stripped title, the year, the rating, the description rule, the first five clean genre pieces, the stripped poster and the source "HuggingFace" |
| `Merge.CleanHfRowSpec` | merge_movies.py:22-50 | a HuggingFace row is kept exactly when its stripped title and poster are usable; the record carries them, the description rule, and the first five clean genre pieces, `min(n, 5)` of them |
| `Merge.LoadHuggingFace` | merge_movies.py:21-50 | the HuggingFace loop builds exactly `HfMovies(rows)` |
| `Merge.HfMoviesMembers` | merge_movies.py:21-50 | a record is in the HuggingFace list exactly when it is the cleaning of some row: nothing is invented and no usable row is lost |
| `Merge.HfMoviesConcat` | merge_movies.py:21-50 | the loop keeps row order: the records of two runs of rows are those of the first followed by those of the second |
| `Merge.HfMoviesSingle` | merge_movies.py:22-50 | a single row gives its own record, or nothing when it is skipped |
| `Merge.Names` | merge_movies.py:66 | the names are exactly those of the keyword objects that have one |
| `Merge.BuildKeywordMap` | merge_movies.py:62-68 | the keyword loop builds exactly `KeywordMap(rows)` |
| `Merge.KeywordMapKeys` | merge_movies.py:62-68 | the map has a key for exactly the ids of the rows |
| `Merge.KeywordMapLast` | merge_movies.py:63-68 | an id maps to the keywords of its last row (none when that row does not parse) |
| `Merge.ParseGenres` | merge_movies.py:70-74 | the genre names, or none when the cell does not parse or some object lacks a name |
| `Merge.KaggleTags` | merge_movies.py:91 | at most five tags, distinct, each a genre or a keyword, and all of them when there are at most five distinct values |
| `Merge.KaggleTagsCount` | merge_movies.py:91 | there are exactly `min(number of distinct genres and keywords, 5)` tags |
| `Merge.KaggleStep` | merge_movies.py:79-109 | one more row is skipped, appended, or stops the script, as its cleaning says |
| `Merge.KaggleAbortSticks` | merge_movies.py:95 | once the script has stopped, later rows change nothing |
| `Merge.LoadKaggle` | merge_movies.py:76-109 | the Kaggle loop builds exactly `KaggleMovies(rows)`, or stops |
| `Merge.KaggleMoviesSpec` | merge_movies.py:79-109 | the script stops exactly when some row's rating is rejected; otherwise a record is a Kaggle record exactly when it is the cleaning of some row |
| `Merge.GatherSpec` | merge_movies.py:79-109 | collecting row outcomes fails exactly when one of them stops the script, and otherwise holds exactly the kept records |
| `Merge.KaggleRating` | merge_movies.py:95 | `float(v or 0.0)` on a Kaggle rating: a number is kept, NaN stays NaN (`None`); the rejected case is the abort of `CleanKaggleRow` |
| `Merge.CleanKaggleRow` | merge_movies.py:79-109 | the checks in code order: an unlinked id or an unusable title skips the row, then a rating `float` rejects stops the script, then an unusable poster skips it; otherwise the record has the TMDB poster URL, the description rule and the genres-and-keywords tags |
| `Merge.CleanKaggleRowSpec` | merge_movies.py:79-109 | an id outside the links or an unusable title skips the row; a rejected rating stops the script exactly when the row got that far; a row is kept exactly when its id is linked, its title is usable, its rating converts and it has a poster; a kept record has the TMDB poster URL, the description rule and the tags of its genres and keywords, distinct, each one of those, `min(n, 5)` of them |
| `Merge.Numbered` | merge_movies.py:115-116 | `enumerate(combined, start=1)`: record `i` of the combined list gets id `i + 1` and keeps its length |
| `Merge.NumberedSpec` | merge_movies.py:115-116 | numbering changes only the ids, and record `i` gets id `i + 1` |
| `Merge.Renumber` | merge_movies.py:115-116 | the in-place loop over the records leaves exactly the numbered list |
| `Merge.MergeMovies` | merge_movies.py:18-116 | the script gives the numbered concatenation of the HuggingFace and Kaggle lists, or nothing when the Kaggle loop stops |
| `Merge.CombinedSpec` | merge_movies.py:112-116 | the combined list is the HuggingFace records then the Kaggle records, each unchanged but for its id, with ids exactly 1..n in list order |

## Left out

- The network: the remote classifier call, the backend URL choice and the catalog fetch. Only their outcomes are modelled, as `AiOutcome` and an `Option` catalog.
- The DOM: elements, `innerHTML`, classes, the modal, scrolling, `alert` and `setButtonLoading`. A handler's alert is its `Response`.
- The `setTimeout` delays, and the race in which a stale mood response overwrites a newer result. Handlers are modelled as atomic steps.
- The `catch` of `getMoodRecommendations` and its alert (script.js:239-243). The remote answer is modelled as a list of genre names, so a successful answer whose items' first components are not strings is not represented. Such an answer can make `genre.toLowerCase()` (script.js:334) throw once some movie has a tag, and the handler then raises that alert and leaves `filteredMovies` unchanged.
- Reading CSV files with pandas. Each row arrives as a record of the cells the code reads.
- `pd.to_datetime`: it is the parameter `yearOf`.
- `ast.literal_eval`: its output is taken as given, an `Option` of a sequence of optional names.
- `float` and `round(rating, 1)`: ratings arrive in tenths. A numeric cell is a number, NaN (`Missing`) or a value `float`/`int` rejects (`Malformed`).
- The `pd.to_numeric` id coercion: ids arrive as integers.
- Merge.KaggleTags: Python leaves the order of `list(set(...))` open, as it does the choice of which five values survive. The model keeps the first five distinct values in order of first occurrence. Only length, distinctness and membership are claimed, plus completeness when at most five distinct values exist.
- Cards.CardDescription: the 100-character cut and the `length > 100` test count Unicode scalar values, where JavaScript counts UTF-16 code units. A description with characters outside the Basic Multilingual Plane is cut later in the model than in the browser. The 200-character cuts of the Python scripts count code points, as the model does.
- Cards.MakeCard: the 103-character bound is in scalar values too, for the same reason.
- Lowercasing covers ASCII letters only; JavaScript and Python also fold other Unicode letters.
- Stripping removes the six characters that both `trim()` and `str.strip()` remove: space, tab, line feed, carriage return, vertical tab and form feed. Python's `strip` also removes the separators `\x1c`-`\x1f`, `\x85` and the other Unicode spaces; JavaScript's `trim` removes the Unicode spaces but not `\x1c`-`\x1f`.
- File writes (`json.dump`), the HTTP download, the console and `print` output, the rating and year statistics, the top-10 sort of `generate_stats`, and `main`.
- In the merge script, a record is a value. The sharing of one dict between `huggingface_movies`, `kaggle_movies` and `combined_movies` is not modelled. The renumbering acts on an array of these values.
- The keyboard shortcuts and the modal's watch button of the detail view.
