# Book rating aggregation and ranking, modelled in Dafny

This project models the rating logic of a small book-catalog backend and its
reporting script, and proves properties of it. There are three parts.

- **The analysis engine** of the report script (`analisis_libros.py`,
  module `BookAnalysis`, file `analisis_libros.dfy`). It takes a frame of books,
  each with a title, a `genres` cell and a `ratings` cell. It computes a rounded
  average per book and builds a first-seen genre catalog. It ranks every catalog
  genre by the mean of its books' averages and picks the top genre, first one
  winning ties. Last come the top three books, for the whole frame and for one
  chosen genre.
- **The cached average on the book model** (`libros/models.py`, module
  `Models`, file `models.dfy`). A `Book` object keeps its rating set and an
  `averageRating` field. Each `Rating.save()` or `Rating.delete()` call
  recomputes that field.
  The rating table allows one rating per (user, book) pair. Scores are
  the field's choices, 1 to 5.
- **The API's average** (`libros/serializers.py`, module `Serializers`, file
  `serializers.dfy`): the unrounded mean of the scores, or 0.

`average_rules.dfy` (module `AverageRules`) compares the three rules. The cached
average is the API average rounded to two decimals. The script, fed the ratings
the API lists, computes the cached value. `common.dfy` (module `Common`) holds
the shared sums, means and the two-decimal rounding.

How the model represents the source:

- Python's `round(x, 2)` is `Common.Round2` on exact reals: the nearest
  hundredth, a tie going to the even one. Its contract and lemmas give
  what the proofs need: within half a hundredth, a whole number of hundredths,
  monotone, exact on values with two decimals. Averages are exact `real`s.
- A `genres` cell is `Some(list)` or `None` for anything that is not a list
  (null included). A list element is a dict, with or without its `id` and
  `name` keys, or `NotADict`. A `ratings` cell is `Some(list)` or `None` for a
  false value such as null. A rating has a score or is `Unscored`.
- An exception caught by one of the script's handlers is an `Option` that is
  `None`. The results then keep what was filled before the failure.
- The data frame is a class (`BookAnalysis.DataFrame`), because the analysis
  adds the `avg_rating` column to its caller's frame.
- A book's rating set is the sequence of its rating rows in table order. Each
  row is a (user, score) pair, and no user appears twice. `Models.ByUser` views
  it as the map from user to score, and the save and delete methods state their
  effect on that map. `rating_set` has no defined order. Both averages depend
  only on that map (`Models.StoredAverageOrderFree`,
  `Serializers.ApiAverageOrderFree`), so the order the model picks does not
  matter.

Behaviour of the code that the model follows, where a reader might expect
otherwise:

- A rating without a `score` does not get skipped. The `KeyError` it raises
  is caught by the outer handler (analisis_libros.py:134-135), so every result
  stays at its default (`BookAnalysis.AnalysisStopsEarly`).
- A genre entry without an `id` is skipped only by the catalog. The membership
  lambda (analisis_libros.py:96 and 124) builds `[g['id'] for g in x]`, so that
  same entry makes the lambda raise for every genre. The ranking then ends up
  empty and the chosen genre's selection fails
  (`BookAnalysis.MalformedEntrySpoilsRanking`).
- With an empty catalog the analysis returns before the top three are
  computed, so `top_3_libros` stays empty even when the frame has books. This
  holds even when those books have ratings.
- `Book.average_rating` is not the field the API returns. The second
  `BookSerializer` (libros/serializers.py:57-81) declares `average_rating`
  twice. The later declaration, a method field, is the one in force, so the
  API reports the unrounded mean.

## Model

| member | source | states |
|---|---|---|
| `BookAnalysis.ScoresOf` | analisis_libros.py:83 | the score list exists exactly when every rating has a score, and then it holds each rating's score in order |
| `BookAnalysis.BookAverage` | analisis_libros.py:82-84 | computing a book's average raises exactly when its rating list is non-empty and some rating lacks a score |
| `BookAnalysis.BookAverageUnrated` | analisis_libros.py:83 | a book whose ratings are empty or null averages exactly 0 |
| `BookAnalysis.BookAverageRange` | analisis_libros.py:83 | with scores in 1..5 the average is defined; it is 0 exactly when there are no ratings, and otherwise lies in [1, 5] |
| `BookAnalysis.BookAverageConstant` | analisis_libros.py:83 | one rating, or k equal ratings of score s, average to s |
| `BookAnalysis.WithAverages` | analisis_libros.py:82-84 | the `avg_rating` column exists exactly when every book's average is defined; row i is book i with its average |
| `BookAnalysis.Lookup` | analisis_libros.py:63 | an id is found exactly when some catalog entry carries it |
| `BookAnalysis.FirstIndex` | analisis_libros.py:63-64 | the first entry carrying an id gives the name a lookup returns |
| `BookAnalysis.GenreCatalog` | analisis_libros.py:56-65 | the nested loops build exactly the catalog `CatalogOf` of the books |
| `BookAnalysis.CatalogIsDedup` | analisis_libros.py:56-65 | the catalog equals the well-formed entries of list-valued cells with every repeated id after its first occurrence dropped |
| `BookAnalysis.FlatMembers` | analisis_libros.py:59-62 | an (id, name) pair is among the well-formed entries exactly when some list-valued cell holds a dict with that id and name |
| `BookAnalysis.CatalogSpec` | analisis_libros.py:56-65 | an id is a catalog key exactly when some list-valued cell has a dict entry with that id and a name; its name is the first-seen one; no key repeats; keys are in first-seen order |
| `BookAnalysis.DedupOrder` | analisis_libros.py:63-64 | every kept id occurs in the input, and kept ids are ordered by their first occurrence |
| `BookAnalysis.DedupUnique` | analisis_libros.py:63 | the catalog never holds the same id twice |
| `BookAnalysis.GenreIds` | analisis_libros.py:96 | the id list exists exactly when every entry is a dict with an `id`, and then lists those ids in order |
| `BookAnalysis.SelectionSpec` | analisis_libros.py:95-97 | the selection fails exactly when the lambda raises on some row; otherwise each row that lists the genre occurs in it exactly as often as in the frame, and no other row occurs in it |
| `BookAnalysis.RankGenres` | analisis_libros.py:92-104 | the loop over the catalog builds exactly `GenreRanking` |
| `BookAnalysis.RankingMembers` | analisis_libros.py:92-101 | a triple is ranked exactly when its genre is in the catalog, its selection succeeds and is non-empty, and its average is the rounded mean of the selected books' averages |
| `BookAnalysis.RankingInCatalogOrder` | analisis_libros.py:93-101 | the ranked genres are a subsequence of the catalog, so they keep catalog order |
| `BookAnalysis.RankedAverageRange` | analisis_libros.py:99-101 | with every book's average in [0, 5], every ranked genre's average, the rounded mean of its books' averages, lies in [0, 5] |
| `BookAnalysis.MalformedEntrySpoilsRanking` | analisis_libros.py:94-104 | a genre entry without an `id` in any list-valued cell makes every selection fail and leaves the ranking empty |
| `BookAnalysis.FirstMaxIndex` | analisis_libros.py:108 | the chosen triple has the largest average and every earlier triple a strictly smaller one (Python `max` keeps the first maximum) |
| `BookAnalysis.Columns` | analisis_libros.py:111-116 | the three lists have the ranking's length and read back, position by position, to the ranking |
| `BookAnalysis.InsertDescSpec` | analisis_libros.py:119 | inserting into a non-increasing sequence keeps it non-increasing and adds exactly the new row |
| `BookAnalysis.SortDescSpec` | analisis_libros.py:119 | sorting yields a non-increasing permutation of the rows |
| `BookAnalysis.TopNSpec` | analisis_libros.py:119 | the top list has min(n, rows) rows, non-increasing, a sub-multiset of the rows, and no row left out has a larger average than a row kept |
| `BookAnalysis.Analyze` | analisis_libros.py:71-137 | the results equal `Analysis` of the frame's books; the frame gains the `avg_rating` column unless computing it raised, and its books are unchanged |
| `BookAnalysis.AnalyzeTwice` | analisis_libros.py:82 | two runs on the same frame give the same results |
| `BookAnalysis.AnalysisStopsEarly` | analisis_libros.py:72-89 | a rating without a score, or an empty catalog, leaves every result at its default, including an empty global top three |
| `BookAnalysis.AnalysisRanking` | analisis_libros.py:106-119 | the top genre exists exactly when some genre was ranked, is a ranked triple with the maximal average and the first such; the parallel lists read back to the ranking; the global top three are `TopN(rows, 3)` with min(3, books) rows |
| `BookAnalysis.AnalysisAverageRange` | analisis_libros.py:82-116 | with every score in 1..5, the top genre's average and every entry of `promedios` lie in [0, 5] |
| `BookAnalysis.AnalysisChosenGenre` | analisis_libros.py:122-132 | the chosen genre is reported exactly when the analysis reached it, its selection succeeded and is non-empty; then its name is the catalog's or `Desconocido` and its top three come from its books; otherwise its top three are empty |
| `BookAnalysis.ChosenTop3Spec` | analisis_libros.py:122-128 | the chosen genre's top three have min(3, selection) rows, non-increasing, each listing the genre, a sub-multiset of the frame, with no book of the genre left out beating one kept |
| `Common.Round2` | libros/models.py:60 | `round(x, 2)` lies within half a hundredth of x and is a whole number of hundredths |
| `Common.Round2Within` | libros/models.py:60 | rounding keeps a value inside any interval with whole-number bounds |
| `Common.MeanRealBounds` | analisis_libros.py:100 | the mean of values bounded by lo and hi lies in [lo, hi] |
| `Common.MeanIntBounds` | libros/serializers.py:77 | the mean of scores bounded by lo and hi lies in [lo, hi] |
| `Models.Scores` | libros/models.py:59 | the score list has one score per rating, in order |
| `Models.HasRatingByUser` | libros/models.py:78 | a user has a rating row exactly when the user is a key of the map view |
| `Models.WithoutByUser` | libros/models.py:85-88 | deleting a user's rating removes exactly that user from the map view |
| `Models.WithoutUnique` | libros/models.py:78 | deleting a rating keeps one rating per user |
| `Models.WithScoreByUser` | libros/models.py:81-83 | saving a stored rating with a new score keeps one rating per user and sets that user's score in the map view |
| `Models.SumOrderFree` | libros/models.py:59 | two rating sets that satisfy the one-rating-per-user constraint and have the same user-to-score view have the same number of rows and the same score sum |
| `Models.StoredAverageOrderFree` | libros/models.py:57-61 | two such rating sets give the same cached average, so the unordered `rating_set` determines it |
| `Models.StoredAverageRange` | libros/models.py:57-61 | the cached average is 0 exactly when there are no ratings, and otherwise lies in [1, 5] |
| `Models.Book.constructor` | libros/models.py:50-55 | a new book has no ratings and the default average 0.00 |
| `Models.Book.UpdateAverageRating` | libros/models.py:57-61 | the field becomes the rounded mean of the book's scores, or 0 without ratings; the ratings are untouched and only this field changes |
| `Models.Book.SaveNewRating` | libros/models.py:77-83 | inserting fails exactly when the user already rated the book, and then nothing changes; otherwise the rating is added, the map view gains the user's score and the cached average is recomputed |
| `Models.Book.SaveRating` | libros/models.py:81-83 | saving a stored rating sets the user's score, keeps one rating per user and recomputes the cached average |
| `Models.Book.DeleteRating` | libros/models.py:85-88 | deleting removes the user from the map view and recomputes the average from the remaining ratings; deleting the last one resets it to 0 |
| `Models.RateOneOfTwo` | libros/models.py:57-61 | rating one book leaves another book's ratings and average as they were, and an accepted rating leaves the rated book's average in [1, 5] |
| `Serializers.ApiAverageOrderFree` | libros/serializers.py:74-78 | two rating sets with the same user-to-score view give the same API average, whatever order the rows are listed in |
| `Serializers.ApiAverageSingle` | libros/serializers.py:77 | a single rating gives its own score |
| `Serializers.ApiAverageConstant` | libros/serializers.py:77 | k ratings of the same score s give s |
| `Serializers.ApiAverageBetween` | libros/serializers.py:74-78 | a non-empty result lies between the smallest and the largest score, hence in [1, 5] |
| `AverageRules.ApiRatings` | libros/serializers.py:67 | the API lists one scored entry per rating row, in order |
| `AverageRules.StoredIsRoundedApi` | libros/models.py:57-61 | the cached average is the API average rounded to two decimals, and the two differ by at most 0.005 |
| `AverageRules.EngineMatchesStored` | analisis_libros.py:82-84 | the script's per-book average of the ratings the API lists equals the book's cached average |

## Left out

- `fetch_libros_desde_api` (analisis_libros.py:25-53) is not modelled: it is an HTTP request plus a check that the frame has the `title`, `genres` and `ratings` columns. The engine's input is always a frame of books with those three cells.
- PDF, Excel and console output (`generar_pdf`, `generar_excel`, `mostrar_resultados_consola`) and the interactive menu `main` are not modelled: they are rendering-library calls, file I/O and a console loop.
- `libros/views.py`, the URL configurations, the admin registration and the migration are not modelled: they are database queries, routing and schema only.
- Floating point is not modelled: Python `/`, `round(x, 2)` and pandas `mean()` are computed exactly on reals, with ties of `round` going to the even hundredth. The `DecimalField` storage (3 digits, 2 decimals) is not modelled either; every cached value lies in [0, 5] and fits it.
- `BookAnalysis.SortDesc`: pandas' default sort is not stable, so the order among equal averages is not specified. The model settles ties stably. `BookAnalysis.Analyze`, `BookAnalysis.AnalysisRanking` and `BookAnalysis.AnalysisChosenGenre` therefore report one admissible order of tied books. The property lemmas `BookAnalysis.SortDescSpec`, `BookAnalysis.TopNSpec` and `BookAnalysis.ChosenTop3Spec` state only facts that hold for every admissible order.
- The `except` of `obtener_info_generos` (analisis_libros.py:66-68) is not modelled: genre ids are integers, and nothing in its loop can raise for them.
- A `ratings` cell holding something true that is not a list, such as a string, is not modelled. The API always sends a list there.
- Data-frame columns other than `title`, `genres` and `ratings`, a rating's `comment` and `created_at`, and the `Author` and `Genre` models are not modelled: no average or ranking depends on them.
- `Models.Score`: the 1..5 range is the score field's `choices`, which form and serializer validation enforce before `save`. `save` does not check it itself. The model makes the range part of the type.
- `Models.Book.Valid`: the cached average agrees with the ratings only along the modelled `Rating.save()` and `Rating.delete()` calls (libros/models.py:81-88). Some paths bypass those per-object overrides and leave `average_rating` stale in the source; the model does not capture them:
  - the cascade delete of a user's ratings (`on_delete=models.CASCADE`, libros/models.py:68);
  - a bulk `QuerySet.delete()`, such as the admin's "delete selected" action on `Rating` (libros/admin.py:10);
  - a direct edit of `average_rating`, for example through the `Book` admin form (libros/admin.py:7).
- `Models.Book.SaveRating` identifies a stored rating by its user, not by its primary key. Moving an existing rating to another user or book is not modelled.
- The persisting `self.save()` of the book, transactions and concurrent requests are not modelled. The model's state is the object's fields.
