/** `ReviewDaoImpl`: the `reviews` table and the `review_likes` table, which
    holds at most one reaction, a like or a dislike, per (review, user). */
module ReviewDao {
  import opened Common
  import opened Model
  import opened Sorting
  import opened Collections

  /** A row of `reviews`, without its key. */
  datatype ReviewRow = ReviewRow(
    content: Option<string>,
    isPositive: Option<bool>,
    userId: Option<Id>,
    filmId: Option<Id>,
    useful: int)

  /** `mapRowToReview`: the row as a review; like and dislike sets are not
      read back. `getBoolean` and `getLong` read a NULL column as `false`
      and `0`; `getString` reads it as null. */
  function ToReview(id: Id, row: ReviewRow): Review {
    Review(Some(id), row.content,
      Some(if row.isPositive.Some? then row.isPositive.value else false),
      Some(if row.userId.Some? then row.userId.value else 0),
      Some(if row.filmId.Some? then row.filmId.value else 0),
      row.useful, {}, {})
  }

  /** The users whose reaction to `reviewId` is a like (`is_like` true). */
  function Likers(reactions: map<(Id, Id), bool>, reviewId: Id): set<Id> {
    set key | key in reactions && key.0 == reviewId && reactions[key] :: key.1
  }

  /** The users whose reaction to `reviewId` is a dislike. */
  function Dislikers(reactions: map<(Id, Id), bool>, reviewId: Id): set<Id> {
    set key | key in reactions && key.0 == reviewId && !reactions[key] :: key.1
  }

  /** What `updateUseful` writes: `COALESCE(SUM(CASE WHEN is_like THEN 1
      ELSE -1 END), 0)` over the review's reactions, that is likes minus
      dislikes, 0 without reactions. */
  function Useful(reactions: map<(Id, Id), bool>, reviewId: Id): int {
    |Likers(reactions, reviewId)| - |Dislikers(reactions, reviewId)|
  }

  /** Setting the reaction of a user who had none adds them to one side. */
  lemma NewReaction(reactions: map<(Id, Id), bool>, reviewId: Id, userId: Id, like: bool)
    requires (reviewId, userId) !in reactions
    ensures Likers(reactions[(reviewId, userId) := like], reviewId) ==
      if like then Likers(reactions, reviewId) + {userId} else Likers(reactions, reviewId)
    ensures Dislikers(reactions[(reviewId, userId) := like], reviewId) ==
      if like then Dislikers(reactions, reviewId) else Dislikers(reactions, reviewId) + {userId}
    ensures userId !in Likers(reactions, reviewId) && userId !in Dislikers(reactions, reviewId)
  {
  }

  /** Turning a user's reaction over moves them from one side to the other. */
  lemma FlippedReaction(reactions: map<(Id, Id), bool>, reviewId: Id, userId: Id, like: bool)
    requires (reviewId, userId) in reactions && reactions[(reviewId, userId)] == !like
    ensures Likers(reactions[(reviewId, userId) := like], reviewId) ==
      if like then Likers(reactions, reviewId) + {userId} else Likers(reactions, reviewId) - {userId}
    ensures Dislikers(reactions[(reviewId, userId) := like], reviewId) ==
      if like then Dislikers(reactions, reviewId) - {userId} else Dislikers(reactions, reviewId) + {userId}
    ensures like ==> userId !in Likers(reactions, reviewId) && userId in Dislikers(reactions, reviewId)
    ensures !like ==> userId in Likers(reactions, reviewId) && userId !in Dislikers(reactions, reviewId)
  {
  }

  /** A like replaces whatever the user's reaction was: usefulness rises by 1
      from no reaction, by 2 from a dislike, and not at all from a like. */
  lemma UsefulAfterLike(reactions: map<(Id, Id), bool>, reviewId: Id, userId: Id)
    ensures Useful(reactions[(reviewId, userId) := true], reviewId) == Useful(reactions, reviewId) +
      (if (reviewId, userId) !in reactions then 1 else if reactions[(reviewId, userId)] then 0 else 2)
  {
    var key := (reviewId, userId);
    if key !in reactions {
      NewReaction(reactions, reviewId, userId, true);
    } else if reactions[key] {
      assert reactions[key := true] == reactions;
    } else {
      FlippedReaction(reactions, reviewId, userId, true);
    }
  }

  /** A dislike replaces whatever the user's reaction was. */
  lemma UsefulAfterDislike(reactions: map<(Id, Id), bool>, reviewId: Id, userId: Id)
    ensures Useful(reactions[(reviewId, userId) := false], reviewId) == Useful(reactions, reviewId) -
      (if (reviewId, userId) !in reactions then 1 else if reactions[(reviewId, userId)] then 2 else 0)
  {
    var key := (reviewId, userId);
    if key !in reactions {
      NewReaction(reactions, reviewId, userId, false);
    } else if !reactions[key] {
      assert reactions[key := false] == reactions;
    } else {
      FlippedReaction(reactions, reviewId, userId, false);
    }
  }

  /** Reactions to other reviews do not move a review's usefulness. */
  lemma UsefulIsPerReview(reactions: map<(Id, Id), bool>, reviewId: Id, userId: Id, other: Id, like: bool)
    requires other != reviewId
    ensures Useful(reactions[(reviewId, userId) := like], other) == Useful(reactions, other)
    ensures Useful(reactions - {(reviewId, userId)}, other) == Useful(reactions, other)
  {
    assert Likers(reactions[(reviewId, userId) := like], other) == Likers(reactions, other);
    assert Dislikers(reactions[(reviewId, userId) := like], other) == Dislikers(reactions, other);
    assert Likers(reactions - {(reviewId, userId)}, other) == Likers(reactions, other);
    assert Dislikers(reactions - {(reviewId, userId)}, other) == Dislikers(reactions, other);
  }

  /** `removeLike` deletes only a like: without it the user reacts no more
      and usefulness drops by 1; a dislike, or nothing, stays as it was. */
  function WithoutReaction(reactions: map<(Id, Id), bool>, reviewId: Id, userId: Id, like: bool)
    : map<(Id, Id), bool>
  {
    var key := (reviewId, userId);
    if key in reactions && reactions[key] == like then reactions - {key} else reactions
  }

  lemma UsefulAfterRemoveLike(reactions: map<(Id, Id), bool>, reviewId: Id, userId: Id)
    ensures Useful(WithoutReaction(reactions, reviewId, userId, true), reviewId) == Useful(reactions, reviewId) -
      (if (reviewId, userId) in reactions && reactions[(reviewId, userId)] then 1 else 0)
  {
    var key := (reviewId, userId);
    if key in reactions && reactions[key] {
      var after := reactions - {key};
      assert Likers(after, reviewId) == Likers(reactions, reviewId) - {userId};
      assert Dislikers(after, reviewId) == Dislikers(reactions, reviewId);
      assert userId in Likers(reactions, reviewId);
    }
  }

  lemma UsefulAfterRemoveDislike(reactions: map<(Id, Id), bool>, reviewId: Id, userId: Id)
    ensures Useful(WithoutReaction(reactions, reviewId, userId, false), reviewId) == Useful(reactions, reviewId) +
      (if (reviewId, userId) in reactions && !reactions[(reviewId, userId)] then 1 else 0)
  {
    var key := (reviewId, userId);
    if key in reactions && !reactions[key] {
      var after := reactions - {key};
      assert Likers(after, reviewId) == Likers(reactions, reviewId);
      assert Dislikers(after, reviewId) == Dislikers(reactions, reviewId) - {userId};
      assert userId in Dislikers(reactions, reviewId);
    }
  }

  /** Removing a like undoes adding it, when the user had not reacted to
      the review before; over a prior dislike the like is not undone to it. */
  lemma RemoveLikeUndoesAddLike(reactions: map<(Id, Id), bool>, reviewId: Id, userId: Id)
    ensures (reviewId, userId) !in reactions ==>
      WithoutReaction(reactions[(reviewId, userId) := true], reviewId, userId, true) == reactions
    ensures (reviewId, userId) in reactions ==>
      (reviewId, userId) !in WithoutReaction(reactions[(reviewId, userId) := true], reviewId, userId, true)
  {
    var key := (reviewId, userId);
    if key !in reactions {
      assert reactions[key := true] - {key} == reactions;
    }
  }

  /** The `reviews` table after `updateUseful(reviewId)`: only the reviewed
      row's `useful` column is rewritten, and only when the row exists. */
  function WithRecomputedUseful(reviews: map<Id, ReviewRow>, reactions: map<(Id, Id), bool>, reviewId: Id)
    : map<Id, ReviewRow>
  {
    if reviewId in reviews then reviews[reviewId := reviews[reviewId].(useful := Useful(reactions, reviewId))]
    else reviews
  }

  /** Recomputing usefulness keeps every key, every other row, and the
      reviewed row's content, type, author and film. */
  lemma RecomputedUsefulFrame(reviews: map<Id, ReviewRow>, reactions: map<(Id, Id), bool>, reviewId: Id)
    ensures WithRecomputedUseful(reviews, reactions, reviewId).Keys == reviews.Keys
    ensures forall id :: id in reviews && id != reviewId ==> WithRecomputedUseful(reviews, reactions, reviewId)[id] == reviews[id]
    ensures reviewId in reviews ==>
      WithRecomputedUseful(reviews, reactions, reviewId)[reviewId] == reviews[reviewId].(useful := Useful(reactions, reviewId))
  {
  }

  /** `ORDER BY useful DESC`. */
  function MostUsefulFirst(): (le: (Review, Review) -> bool) {
    ByKeyDescending((r: Review) => r.useful)
  }

  class ReviewDao {
    var reviews: map<Id, ReviewRow>
    var reactions: map<(Id, Id), bool>
    /** The next key the `review_id` identity column generates. */
    var nextId: Id

    ghost predicate Valid()
      reads this
    {
      forall id :: id in reviews ==> id < nextId
    }

    constructor()
      ensures reviews == map[] && reactions == map[] && Valid()
    {
      reviews := map[];
      reactions := map[];
      nextId := 1;
    }

    /** `create(review)`: inserts the review's columns under a fresh key and
      returns the review carrying that key. */
    method Create(review: Review) returns (created: Review)
      requires Valid()
      modifies this
      ensures Valid() && reactions == old(reactions)
      ensures created == review.(reviewId := created.reviewId)
      ensures created.reviewId.Some? && created.reviewId.value !in old(reviews)
      ensures reviews == old(reviews)[created.reviewId.value :=
        ReviewRow(review.content, review.isPositive, review.userId, review.filmId, review.useful)]
    {
      var id := nextId;
      nextId := nextId + 1;
      reviews := reviews[id := ReviewRow(review.content, review.isPositive, review.userId, review.filmId, review.useful)];
      created := review.(reviewId := Some(id));
    }

    /** `update(review)`: overwrites content, type and usefulness of the row
      with the review's key, if there is one; author and film never change. */
    method Update(review: Review) returns (r: Review)
      requires Valid()
      modifies this
      ensures Valid() && reactions == old(reactions) && r == review
      ensures review.reviewId.Some? && review.reviewId.value in old(reviews) ==>
        var id := review.reviewId.value;
        reviews == old(reviews)[id := old(reviews)[id].(content := review.content,
          isPositive := review.isPositive, useful := review.useful)]
      ensures review.reviewId.None? || review.reviewId.value !in old(reviews) ==> reviews == old(reviews)
      ensures forall id :: id in old(reviews) ==>
        id in reviews && reviews[id].userId == old(reviews)[id].userId && reviews[id].filmId == old(reviews)[id].filmId
    {
      if review.reviewId.Some? && review.reviewId.value in reviews {
        var id := review.reviewId.value;
        reviews := reviews[id := reviews[id].(content := review.content,
          isPositive := review.isPositive, useful := review.useful)];
      }
      r := review;
    }

    /** `delete(id)`. */
    method Delete(id: Id)
      requires Valid()
      modifies this
      ensures Valid() && reactions == old(reactions)
      ensures reviews == old(reviews) - {id}
    {
      reviews := reviews - {id};
    }

    /** `findById(id)`. */
    function FindById(id: Id): (r: Option<Review>)
      reads this
      ensures r.Some? <==> id in reviews
      ensures r.Some? ==> r.value.reviewId == Some(id) && r.value.useful == reviews[id].useful
    {
      if id in reviews then Some(ToReview(id, reviews[id])) else None
    }

    /** The reviews of the rows whose key is in `ids`, in that order. */
    function ReviewsOf(ids: seq<Id>): (r: seq<Review>)
      reads this
      requires forall i :: 0 <= i < |ids| ==> ids[i] in reviews
      ensures |r| == |ids| && forall i :: 0 <= i < |ids| ==> r[i] == ToReview(ids[i], reviews[ids[i]])
    {
      if ids == [] then [] else [ToReview(ids[0], reviews[ids[0]])] + ReviewsOf(ids[1..])
    }

    /** The rows `filmId` selects, or all of them when it is absent. */
    function Selected(filmId: Option<Id>): set<Id>
      reads this
    {
      set id | id in reviews && (filmId.None? || reviews[id].filmId == filmId)
    }

    /** `findByFilmId(filmId, count)` for `Some(filmId)` and `findAll(count)`
      for `None`: the selected reviews, most useful first, at most `count`. */
    method Find(filmId: Option<Id>, count: nat) returns (r: seq<Review>)
      ensures |r| == Min(count, |Selected(filmId)|)
      ensures forall x :: x in r ==>
        x.reviewId.Some? && x.reviewId.value in Selected(filmId) && x == ToReview(x.reviewId.value, reviews[x.reviewId.value])
      ensures Distinct(r)
      ensures SortedBy(MostUsefulFirst(), r)
      ensures forall id :: id in Selected(filmId) && ToReview(id, reviews[id]) !in r ==>
        forall i :: 0 <= i < |r| ==> r[i].useful >= reviews[id].useful
    {
      var ids := SetToSeq(Selected(filmId));
      assert forall i :: 0 <= i < |ids| ==> ids[i] in Selected(filmId);
      var rows := ReviewsOf(ids);
      assert Distinct(rows) by {
        forall i, j | 0 <= i < j < |rows| ensures rows[i] != rows[j] {
          assert rows[i].reviewId == Some(ids[i]);
        }
      }
      ByKeyDescendingIsTotalPreorder((x: Review) => x.useful);
      TopNIsTop(MostUsefulFirst(), rows, count);
      r := TopN(MostUsefulFirst(), rows, count);
      forall id | id in Selected(filmId) && ToReview(id, reviews[id]) !in r
        ensures forall i :: 0 <= i < |r| ==> r[i].useful >= reviews[id].useful
      {
        var k :| 0 <= k < |ids| && ids[k] == id;
        assert rows[k] == ToReview(id, reviews[id]);
      }
    }

    /** `hasLike(reviewId, userId)`. */
    function HasLike(reviewId: Id, userId: Id): (r: bool)
      reads this
      ensures r <==> userId in Likers(reactions, reviewId)
    {
      (reviewId, userId) in reactions && reactions[(reviewId, userId)]
    }

    /** `hasDislike(reviewId, userId)`. */
    function HasDislike(reviewId: Id, userId: Id): (r: bool)
      reads this
      ensures r <==> userId in Dislikers(reactions, reviewId)
    {
      (reviewId, userId) in reactions && !reactions[(reviewId, userId)]
    }

    /** `updateUseful(reviewId)`: recomputes the review's usefulness from its
      reactions; no other row changes. */
    method UpdateUseful(reviewId: Id)
      requires Valid()
      modifies this
      ensures Valid() && reactions == old(reactions)
      ensures reviews == WithRecomputedUseful(old(reviews), reactions, reviewId)
    {
      if reviewId in reviews {
        reviews := reviews[reviewId := reviews[reviewId].(useful := Useful(reactions, reviewId))];
      }
    }

    /** `addLike(reviewId, userId)`: the MERGE on (review, user) makes the
      reaction a like, then usefulness is recomputed. */
    method AddLike(reviewId: Id, userId: Id)
      requires Valid()
      modifies this
      ensures Valid()
      ensures reactions == old(reactions)[(reviewId, userId) := true]
      ensures HasLike(reviewId, userId) && !HasDislike(reviewId, userId)
      ensures reviews.Keys == old(reviews).Keys
      ensures reviewId in reviews ==> reviews[reviewId].useful == Useful(reactions, reviewId)
      ensures forall id :: id in old(reviews) && id != reviewId ==> reviews[id] == old(reviews)[id]
      ensures reviews == WithRecomputedUseful(old(reviews), reactions, reviewId)
    {
      reactions := reactions[(reviewId, userId) := true];
      UpdateUseful(reviewId);
    }

    /** `addDislike(reviewId, userId)`: the same with a dislike. */
    method AddDislike(reviewId: Id, userId: Id)
      requires Valid()
      modifies this
      ensures Valid()
      ensures reactions == old(reactions)[(reviewId, userId) := false]
      ensures HasDislike(reviewId, userId) && !HasLike(reviewId, userId)
      ensures reviews.Keys == old(reviews).Keys
      ensures reviewId in reviews ==> reviews[reviewId].useful == Useful(reactions, reviewId)
      ensures forall id :: id in old(reviews) && id != reviewId ==> reviews[id] == old(reviews)[id]
      ensures reviews == WithRecomputedUseful(old(reviews), reactions, reviewId)
    {
      reactions := reactions[(reviewId, userId) := false];
      UpdateUseful(reviewId);
    }

    /** `removeLike(reviewId, userId)`: deletes the reaction only if it is a
      like, then recomputes usefulness. */
    method RemoveLike(reviewId: Id, userId: Id)
      requires Valid()
      modifies this
      ensures Valid()
      ensures reactions == WithoutReaction(old(reactions), reviewId, userId, true)
      ensures !HasLike(reviewId, userId) && HasDislike(reviewId, userId) == old(HasDislike(reviewId, userId))
      ensures reviews.Keys == old(reviews).Keys
      ensures reviewId in reviews ==> reviews[reviewId].useful == Useful(reactions, reviewId)
      ensures forall id :: id in old(reviews) && id != reviewId ==> reviews[id] == old(reviews)[id]
      ensures reviews == WithRecomputedUseful(old(reviews), reactions, reviewId)
    {
      var key := (reviewId, userId);
      if key in reactions && reactions[key] {
        reactions := reactions - {key};
      }
      UpdateUseful(reviewId);
    }

    /** `removeDislike(reviewId, userId)`: deletes the reaction only if it is
      a dislike, then recomputes usefulness. */
    method RemoveDislike(reviewId: Id, userId: Id)
      requires Valid()
      modifies this
      ensures Valid()
      ensures reactions == WithoutReaction(old(reactions), reviewId, userId, false)
      ensures !HasDislike(reviewId, userId) && HasLike(reviewId, userId) == old(HasLike(reviewId, userId))
      ensures reviews.Keys == old(reviews).Keys
      ensures reviewId in reviews ==> reviews[reviewId].useful == Useful(reactions, reviewId)
      ensures forall id :: id in old(reviews) && id != reviewId ==> reviews[id] == old(reviews)[id]
      ensures reviews == WithRecomputedUseful(old(reviews), reactions, reviewId)
    {
      var key := (reviewId, userId);
      if key in reactions && !reactions[key] {
        reactions := reactions - {key};
      }
      UpdateUseful(reviewId);
    }
  }
}
