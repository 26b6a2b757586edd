/** The three averaging rules side by side: the average cached on the book
    model, the one the API reports, and the one the report script recomputes
    from the ratings the API lists. */
module AverageRules {
  import opened Common
  import Models
  import Serializers
  import BookAnalysis

  /** The `ratings` list of a book as the API serializes it: one entry with a
      `score` per rating row. */
  function ApiRatings(rs: seq<Models.Rating>): (es: seq<BookAnalysis.RatingEntry>)
    ensures |es| == |rs|
    ensures forall i :: 0 <= i < |rs| ==> es[i] == BookAnalysis.Scored(rs[i].score)
  {
    if rs == [] then [] else ApiRatings(rs[..|rs| - 1]) + [BookAnalysis.Scored(rs[|rs| - 1].score)]
  }

  /** The cached average is the API's average rounded to two decimals, so the
      two differ by at most half a hundredth. */
  lemma StoredIsRoundedApi(rs: seq<Models.Rating>)
    ensures Models.StoredAverage(rs) == Round2(Serializers.ApiAverage(rs))
    ensures Serializers.ApiAverage(rs) - 0.005 <= Models.StoredAverage(rs) <= Serializers.ApiAverage(rs) + 0.005
  {
    if rs == [] {
      Round2OfHundredths(0);
    }
  }

  /** The report script, given the ratings the API lists for a book, computes
      the same average as the one cached on the book. */
  lemma EngineMatchesStored(title: string, genres: Option<seq<BookAnalysis.GenreEntry>>, rs: seq<Models.Rating>)
    ensures BookAnalysis.BookAverage(BookAnalysis.Book(title, genres, Some(ApiRatings(rs)))) ==
      Some(Models.StoredAverage(rs))
  {
    var es := ApiRatings(rs);
    if rs != [] {
      var ss := BookAnalysis.ScoresOf(es);
      assert ss.Some?;
      assert ss.value == Models.Scores(rs);
    }
  }
}
