/** The book catalog's persisted models (libros/models.py): a book keeps a
    cached `average_rating` that every save or delete of one of its ratings
    recomputes. The ratings of a book are its `rating_set`, the rows of the
    rating table that point at it, kept here in table order; the table's
    `unique_together = ('user', 'book')` makes the user identify a row. */
module Models {
  import opened Common

  type UserId = int

  /** The score field's choices: one to five stars. */
  type Score = s: int | 1 <= s <= 5 witness 1

  /** One row of the rating table, seen from its book (comment and creation
      time play no part in any average). */
  datatype Rating = Rating(user: UserId, score: Score)

  /** The scores of a rating set, in table order. */
  function Scores(rs: seq<Rating>): (ss: seq<int>)
    ensures |ss| == |rs|
    ensures forall i :: 0 <= i < |rs| ==> ss[i] == rs[i].score
  {
    if rs == [] then [] else Scores(rs[..|rs| - 1]) + [rs[|rs| - 1].score]
  }

  /** What `update_average_rating` stores: the rounded mean of the scores, or 0
      when the aggregate over no rows is NULL (`... or 0`). */
  function StoredAverage(rs: seq<Rating>): real
  {
    if rs == [] then 0.0 else Round2(MeanInt(Scores(rs)))
  }

  /** The database constraint: at most one rating per user for this book. */
  ghost predicate UniqueUsers(rs: seq<Rating>)
  {
    forall i, j :: 0 <= i < j < |rs| ==> rs[i].user != rs[j].user
  }

  function HasRatingBy(rs: seq<Rating>, user: UserId): (b: bool)
    ensures b <==> exists i :: 0 <= i < |rs| && rs[i].user == user
  {
    if rs == [] then false else HasRatingBy(rs[..|rs| - 1], user) || rs[|rs| - 1].user == user
  }

  /** The rating set viewed as a map from user to score. */
  ghost function ByUser(rs: seq<Rating>): map<UserId, Score>
  {
    if rs == [] then map[] else ByUser(rs[..|rs| - 1])[rs[|rs| - 1].user := rs[|rs| - 1].score]
  }

  /** The rows left after the rating of `user` is deleted. */
  function Without(rs: seq<Rating>, user: UserId): seq<Rating>
  {
    if rs == [] then []
    else if rs[|rs| - 1].user == user then Without(rs[..|rs| - 1], user)
    else Without(rs[..|rs| - 1], user) + [rs[|rs| - 1]]
  }

  /** The rows after the stored rating of `user` is saved with a new score: its
      row is updated in place, or inserted when it is no longer there. */
  function WithScore(rs: seq<Rating>, user: UserId, score: Score): seq<Rating>
  {
    if HasRatingBy(rs, user) then Rescored(rs, user, score) else rs + [Rating(user, score)]
  }

  function Rescored(rs: seq<Rating>, user: UserId, score: Score): (r: seq<Rating>)
    ensures |r| == |rs|
  {
    if rs == [] then []
    else
      var last := rs[|rs| - 1];
      Rescored(rs[..|rs| - 1], user, score) + [if last.user == user then Rating(user, score) else last]
  }

  lemma {:induction false} HasRatingByUser(rs: seq<Rating>, user: UserId)
    ensures HasRatingBy(rs, user) <==> user in ByUser(rs)
  {
    if rs != [] {
      HasRatingByUser(rs[..|rs| - 1], user);
    }
  }

  /** Deleting a user's rating removes exactly that user from the map view. */
  lemma {:induction false} WithoutByUser(rs: seq<Rating>, user: UserId)
    ensures ByUser(Without(rs, user)) == ByUser(rs) - {user}
  {
    if rs != [] {
      var init, last := rs[..|rs| - 1], rs[|rs| - 1];
      WithoutByUser(init, user);
      if last.user != user {
        var w := Without(init, user);
        assert (w + [last])[..|w|] == w;
      }
    }
  }

  /** Deleting keeps the table constraint. */
  lemma {:induction false} WithoutUnique(rs: seq<Rating>, user: UserId)
    requires UniqueUsers(rs)
    ensures UniqueUsers(Without(rs, user))
  {
    if rs != [] {
      var init, last := rs[..|rs| - 1], rs[|rs| - 1];
      WithoutUnique(init, user);
      if last.user != user {
        var w := Without(init, user);
        WithoutMembers(init, user);
        forall i | 0 <= i < |w|
          ensures w[i].user != last.user
        {
          var k :| 0 <= k < |init| && init[k] == w[i];
          assert rs[k] == init[k];
        }
      }
    }
  }

  /** Every row left by `Without` is a row of the original set and is not the user's. */
  lemma {:induction false} WithoutMembers(rs: seq<Rating>, user: UserId)
    ensures |Without(rs, user)| <= |rs|
    ensures forall i :: 0 <= i < |Without(rs, user)| ==>
      Without(rs, user)[i].user != user &&
      exists k :: 0 <= k < |rs| && rs[k] == Without(rs, user)[i]
  {
    if rs != [] {
      var init := rs[..|rs| - 1];
      WithoutMembers(init, user);
      forall i | 0 <= i < |Without(rs, user)|
        ensures exists k :: 0 <= k < |rs| && rs[k] == Without(rs, user)[i]
      {
        if i < |Without(init, user)| {
          var k :| 0 <= k < |init| && init[k] == Without(init, user)[i];
          assert rs[k] == init[k];
        } else {
          assert rs[|rs| - 1] == Without(rs, user)[i];
        }
      }
    }
  }

  /** Saving a user's rating with a new score sets that user's entry of the map view. */
  lemma {:induction false} WithScoreByUser(rs: seq<Rating>, user: UserId, score: Score)
    requires UniqueUsers(rs)
    ensures UniqueUsers(WithScore(rs, user, score))
    ensures ByUser(WithScore(rs, user, score)) == ByUser(rs)[user := score]
  {
    if HasRatingBy(rs, user) {
      RescoredByUser(rs, user, score);
    } else {
      HasRatingByUser(rs, user);
      assert ByUser(rs + [Rating(user, score)]) == ByUser(rs)[user := score] by {
        assert (rs + [Rating(user, score)])[..|rs|] == rs;
      }
    }
  }

  lemma {:induction false} RescoredByUser(rs: seq<Rating>, user: UserId, score: Score)
    requires UniqueUsers(rs)
    requires HasRatingBy(rs, user)
    ensures UniqueUsers(Rescored(rs, user, score))
    ensures ByUser(Rescored(rs, user, score)) == ByUser(rs)[user := score]
  {
    RescoredUsers(rs, user, score);
    var init, last := rs[..|rs| - 1], rs[|rs| - 1];
    var r := Rescored(rs, user, score);
    assert r[..|rs| - 1] == Rescored(init, user, score);
    if last.user == user {
      RescoredUnchanged(init, user, score);
    } else {
      RescoredByUser(init, user, score);
    }
  }

  /** Rescoring changes no user and keeps every other row. */
  lemma {:induction false} RescoredUsers(rs: seq<Rating>, user: UserId, score: Score)
    ensures forall i :: 0 <= i < |rs| ==>
      Rescored(rs, user, score)[i].user == rs[i].user &&
      (rs[i].user != user ==> Rescored(rs, user, score)[i] == rs[i])
  {
    if rs != [] {
      RescoredUsers(rs[..|rs| - 1], user, score);
    }
  }

  lemma {:induction false} RescoredUnchanged(rs: seq<Rating>, user: UserId, score: Score)
    requires !HasRatingBy(rs, user)
    ensures Rescored(rs, user, score) == rs
  {
    if rs != [] {
      RescoredUnchanged(rs[..|rs| - 1], user, score);
    }
  }

  /** The cached average of a book: 0 exactly when it has no ratings, and
      otherwise between one and five stars. */
  lemma StoredAverageRange(rs: seq<Rating>)
    ensures StoredAverage(rs) == 0.0 <==> rs == []
    ensures rs != [] ==> 1.0 <= StoredAverage(rs) <= 5.0
  {
    if rs != [] {
      MeanIntBounds(Scores(rs), 1, 5);
      Round2Within(MeanInt(Scores(rs)), 1, 5);
    }
  }

  /** A rating set without `user`'s row is left as it is by deleting that row. */
  lemma {:induction false} WithoutAbsent(rs: seq<Rating>, user: UserId)
    requires !HasRatingBy(rs, user)
    ensures Without(rs, user) == rs
  {
    if rs != [] {
      WithoutAbsent(rs[..|rs| - 1], user);
    }
  }

  /** Under the table constraint, the last row's user has no earlier row. */
  lemma LastUserFresh(rs: seq<Rating>)
    requires UniqueUsers(rs) && rs != []
    ensures UniqueUsers(rs[..|rs| - 1])
    ensures !HasRatingBy(rs[..|rs| - 1], rs[|rs| - 1].user)
    ensures rs[|rs| - 1].user !in ByUser(rs[..|rs| - 1])
  {
    var init, last := rs[..|rs| - 1], rs[|rs| - 1];
    assert forall i :: 0 <= i < |init| ==> init[i] == rs[i];
    assert forall i :: 0 <= i < |init| ==> init[i].user != last.user;
    HasRatingByUser(init, last.user);
  }

  /** Under the table constraint, the map view of the rows before the last one
      is the whole view without the last row's user. */
  lemma LastRowByUser(rs: seq<Rating>)
    requires UniqueUsers(rs) && rs != []
    ensures UniqueUsers(rs[..|rs| - 1])
    ensures ByUser(rs[..|rs| - 1]) == ByUser(rs) - {rs[|rs| - 1].user}
    ensures rs[|rs| - 1].user in ByUser(rs) && ByUser(rs)[rs[|rs| - 1].user] == rs[|rs| - 1].score
  {
    var init, x := rs[..|rs| - 1], rs[|rs| - 1];
    LastUserFresh(rs);
    UpdateThenRemove(ByUser(init), x.user, x.score);
  }

  /** The last row's score is the last term of the sum. */
  lemma LastRowSum(rs: seq<Rating>)
    requires rs != []
    ensures Sum(Scores(rs)) == Sum(Scores(rs[..|rs| - 1])) + rs[|rs| - 1].score
  {
    var ss := Scores(rs);
    assert ss[..|ss| - 1] == Scores(rs[..|rs| - 1]);
  }

  lemma UpdateThenRemove(m: map<UserId, Score>, k: UserId, v: Score)
    requires k !in m
    ensures m[k := v] - {k} == m
  {
    var m' := m[k := v] - {k};
    assert m'.Keys == m.Keys;
    assert forall key :: key in m' ==> m'[key] == m[key];
  }

  /** The map view is empty exactly when there are no rows. */
  lemma ByUserEmpty(rs: seq<Rating>)
    ensures ByUser(rs) == map[] <==> rs == []
  {
    if rs != [] {
      assert rs[|rs| - 1].user in ByUser(rs);
    }
  }

  /** Appending a row adds its score to the sum of the scores. */
  lemma ScoresAppend(rs: seq<Rating>, x: Rating)
    ensures Scores(rs + [x]) == Scores(rs) + [x.score]
    ensures Sum(Scores(rs + [x])) == Sum(Scores(rs)) + x.score
  {
    assert (rs + [x])[..|rs|] == rs;
    assert (Scores(rs) + [x.score])[..|Scores(rs)|] == Scores(rs);
  }

  /** Deleting the one row of `user` removes exactly that user's score from the sum. */
  lemma {:induction false} WithoutSum(rs: seq<Rating>, user: UserId)
    requires UniqueUsers(rs) && user in ByUser(rs)
    ensures |Without(rs, user)| == |rs| - 1
    ensures Sum(Scores(Without(rs, user))) + ByUser(rs)[user] == Sum(Scores(rs))
  {
    var init, last := rs[..|rs| - 1], rs[|rs| - 1];
    assert rs == init + [last];
    ScoresAppend(init, last);
    LastUserFresh(rs);
    if last.user == user {
      WithoutAbsent(init, user);
    } else {
      WithoutSum(init, user);
      ScoresAppend(Without(init, user), last);
    }
  }

  /** The users of a rating set determine its length and the sum of its
      scores: any two rating sets with the same user-to-score view agree on
      both, whatever order their rows come in. */
  lemma {:induction false} SumOrderFree(rs1: seq<Rating>, rs2: seq<Rating>)
    requires UniqueUsers(rs1) && UniqueUsers(rs2)
    requires ByUser(rs1) == ByUser(rs2)
    ensures |rs1| == |rs2|
    ensures Sum(Scores(rs1)) == Sum(Scores(rs2))
  {
    ByUserEmpty(rs2);
    if rs1 != [] {
      var init, x := rs1[..|rs1| - 1], rs1[|rs1| - 1];
      LastRowByUser(rs1);
      LastRowSum(rs1);
      var rest := Without(rs2, x.user);
      WithoutByUser(rs2, x.user);
      WithoutUnique(rs2, x.user);
      SumOrderFree(init, rest);
      WithoutSum(rs2, x.user);
      assert ByUser(rs2)[x.user] == x.score;
      assert Sum(Scores(rs1)) == Sum(Scores(init)) + x.score;
    }
  }

  /** The cached average depends only on which user gave which score, not on
      the order in which the rating set lists its rows. */
  lemma StoredAverageOrderFree(rs1: seq<Rating>, rs2: seq<Rating>)
    requires UniqueUsers(rs1) && UniqueUsers(rs2)
    requires ByUser(rs1) == ByUser(rs2)
    ensures StoredAverage(rs1) == StoredAverage(rs2)
  {
    SumOrderFree(rs1, rs2);
  }

  class Book {
    /** `rating_set`: the ratings that point at this book. */
    var ratingSet: seq<Rating>
    /** `average_rating`, a `DecimalField` with two decimal places. */
    var averageRating: real

    /** The cached field agrees with the ratings, and the table constraint holds. */
    ghost predicate Valid()
      reads this
    {
      UniqueUsers(ratingSet) && averageRating == StoredAverage(ratingSet)
    }

    /** A new book: no ratings and the field's default of 0.00. */
    constructor ()
      ensures Valid()
      ensures ratingSet == [] && averageRating == 0.0
    {
      ratingSet := [];
      averageRating := 0.0;
    }

    /** `update_average_rating`: recompute the cached field from the ratings and
        save the book; nothing else changes. */
    method UpdateAverageRating()
      modifies this`averageRating
      ensures averageRating == StoredAverage(ratingSet)
      ensures ratingSet == old(ratingSet)
    {
      averageRating := StoredAverage(ratingSet);
    }

    /** `Rating.save` for a rating not yet stored: the insert fails with an
        integrity error when the user already rated this book, and then the
        average is not recomputed; otherwise the row is added and the book's
        average updated. */
    method SaveNewRating(user: UserId, score: Score) returns (ok: bool)
      requires UniqueUsers(ratingSet)
      modifies this
      ensures ok <==> user !in old(ByUser(ratingSet))
      ensures ok ==> Valid() && ratingSet == old(ratingSet) + [Rating(user, score)]
      ensures ok ==> ByUser(ratingSet) == old(ByUser(ratingSet))[user := score]
      ensures !ok ==> ratingSet == old(ratingSet) && averageRating == old(averageRating)
    {
      HasRatingByUser(ratingSet, user);
      if HasRatingBy(ratingSet, user) {
        ok := false;
        return;
      }
      ok := true;
      WithScoreByUser(ratingSet, user, score);
      ratingSet := ratingSet + [Rating(user, score)];
      UpdateAverageRating();
    }

    /** `Rating.save` for a rating already stored, with a possibly new score. */
    method SaveRating(user: UserId, score: Score)
      requires UniqueUsers(ratingSet)
      modifies this
      ensures Valid()
      ensures ratingSet == WithScore(old(ratingSet), user, score)
      ensures ByUser(ratingSet) == old(ByUser(ratingSet))[user := score]
    {
      WithScoreByUser(ratingSet, user, score);
      ratingSet := WithScore(ratingSet, user, score);
      UpdateAverageRating();
    }

    /** `Rating.delete`: remove the user's rating, then recompute the former
        book's average; removing the last rating resets it to 0. */
    method DeleteRating(user: UserId)
      requires UniqueUsers(ratingSet)
      modifies this
      ensures Valid()
      ensures ratingSet == Without(old(ratingSet), user)
      ensures ByUser(ratingSet) == old(ByUser(ratingSet)) - {user}
      ensures ratingSet == [] ==> averageRating == 0.0
    {
      WithoutByUser(ratingSet, user);
      WithoutUnique(ratingSet, user);
      ratingSet := Without(ratingSet, user);
      UpdateAverageRating();
    }
  }

  /** Rating one book leaves every other book as it was. */
  method RateOneOfTwo(rated: Book, other: Book, user: UserId, score: Score) returns (ok: bool)
    requires rated != other
    requires UniqueUsers(rated.ratingSet)
    modifies rated
    ensures other.ratingSet == old(other.ratingSet)
    ensures other.averageRating == old(other.averageRating)
    ensures ok ==> 1.0 <= rated.averageRating <= 5.0
  {
    ok := rated.SaveNewRating(user, score);
    if ok {
      StoredAverageRange(rated.ratingSet);
    }
  }
}
