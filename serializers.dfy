/** The API's book representation (libros/serializers.py). Of the two
    `BookSerializer` classes the module defines, the second one is the one in
    force; its `average_rating` is computed on every request from the book's
    ratings, without rounding. */
module Serializers {
  import opened Common
  import opened Models

  /** `BookSerializer.get_average_rating`: `sum(scores) / len(scores)`, or 0 for
      a book without ratings. */
  function ApiAverage(ratings: seq<Rating>): real
  {
    if ratings != [] then Sum(Scores(ratings)) as real / |ratings| as real else 0.0
  }

  /** The API's average depends only on which user gave which score, not on
      the order in which the rating set lists its rows. */
  lemma ApiAverageOrderFree(rs1: seq<Rating>, rs2: seq<Rating>)
    requires UniqueUsers(rs1) && UniqueUsers(rs2)
    requires ByUser(rs1) == ByUser(rs2)
    ensures ApiAverage(rs1) == ApiAverage(rs2)
  {
    SumOrderFree(rs1, rs2);
  }

  /** A single rating gives its own score. */
  lemma ApiAverageSingle(r: Rating)
    ensures ApiAverage([r]) == r.score as real
  {
    assert Scores([r]) == [r.score];
    assert Sum([r.score]) == Sum([]) + r.score;
  }

  /** `k` ratings with the same score `s` give `s`. */
  lemma ApiAverageConstant(ratings: seq<Rating>, s: Score)
    requires ratings != []
    requires forall i :: 0 <= i < |ratings| ==> ratings[i].score == s
    ensures ApiAverage(ratings) == s as real
  {
    MeanIntConstant(Scores(ratings), s);
  }

  /** The average of a non-empty set lies between its smallest and its largest
      score, and so between one and five stars. */
  lemma ApiAverageBetween(ratings: seq<Rating>)
    requires ratings != []
    ensures MinOf(Scores(ratings)) as real <= ApiAverage(ratings) <= MaxOf(Scores(ratings)) as real
    ensures 1.0 <= ApiAverage(ratings) <= 5.0
  {
    var ss := Scores(ratings);
    MeanIntBounds(ss, MinOf(ss), MaxOf(ss));
    MeanIntBounds(ss, 1, 5);
  }
}
