/** `ReviewService`: the checks in front of the review DAO, over the
    database user and film storages. */
module ReviewService {
  import opened Common
  import opened Model
  import opened Text
  import opened Sorting
  import UserDbStorage
  import FilmDbStorage
  import opened ReviewDao

  /** The checks of `create`, in order: content present and not blank, then
      the type, the author and the film present, then the author and the film
      known; an unknown one becomes a ValidationException. */
  function CreateCheck(review: Review, users: map<Id, UserRow>, films: map<Id, FilmRow>): (r: Outcome)
    ensures r.Done? <==>
      review.content.Some? && !IsBlank(review.content.value)
      && review.isPositive.Some? && review.userId.Some? && review.filmId.Some?
      && review.userId.value in users && review.filmId.value in films
    ensures review.content.None? || IsBlank(review.content.value) ==> r == Fail(Validation(ReviewContentBlank))
    ensures r.Fail? ==> r.error.Validation?
    ensures r.Fail? && r.error.reason.Missing? ==>
      review.content.Some? && !IsBlank(review.content.value)
      && review.isPositive.Some? && review.userId.Some? && review.filmId.Some?
    ensures r == Fail(Validation(Missing(FilmEntity))) ==> review.userId.value in users
  {
    if review.content.None? || IsBlank(review.content.value) then Fail(Validation(ReviewContentBlank))
    else if review.isPositive.None? then Fail(Validation(ReviewTypeNull))
    else if review.userId.None? then Fail(Validation(ReviewUserIdNull))
    else if review.filmId.None? then Fail(Validation(ReviewFilmIdNull))
    else if review.userId.value !in users then Fail(Validation(Missing(UserEntity)))
    else if review.filmId.value !in films then Fail(Validation(Missing(FilmEntity)))
    else Done
  }

  /** A review that is complete apart from its type is refused for the type,
      whether or not its author and film exist. */
  lemma TypeCheckedBeforeExistence(review: Review, users: map<Id, UserRow>, films: map<Id, FilmRow>)
    requires review.content.Some? && !IsBlank(review.content.value) && review.isPositive.None?
    ensures CreateCheck(review, users, films) == Fail(Validation(ReviewTypeNull))
  {
  }

  class ReviewService {
    const reviewDao: ReviewDao
    const userStorage: UserDbStorage.UserDbStorage
    const filmStorage: FilmDbStorage.FilmDbStorage

    ghost predicate Valid()
      reads this, reviewDao, filmStorage
    {
      reviewDao.Valid() && filmStorage.Valid()
    }

    constructor(reviews: ReviewDao, users: UserDbStorage.UserDbStorage, films: FilmDbStorage.FilmDbStorage)
      ensures reviewDao == reviews && userStorage == users && filmStorage == films
    {
      reviewDao := reviews;
      userStorage := users;
      filmStorage := films;
    }

    /** `create(review)`: nothing is stored unless every check passes. */
    method Create(review: Review) returns (r: Result<Review>)
      requires Valid()
      modifies reviewDao
      ensures Valid()
      ensures r.Err? <==> CreateCheck(review, userStorage.users, filmStorage.films).Fail?
      ensures r.Err? ==>
        r.error == CreateCheck(review, userStorage.users, filmStorage.films).error
        && reviewDao.reviews == old(reviewDao.reviews)
      ensures reviewDao.reactions == old(reviewDao.reactions)
      ensures r.Ok? ==>
        r.value == review.(reviewId := r.value.reviewId) && r.value.reviewId.Some?
        && r.value.reviewId.value !in old(reviewDao.reviews)
        && reviewDao.reviews == old(reviewDao.reviews)[r.value.reviewId.value :=
          ReviewRow(review.content, review.isPositive, review.userId, review.filmId, review.useful)]
    {
      if review.content.None? || IsBlank(review.content.value) {
        return Err(Validation(ReviewContentBlank));
      }
      if review.isPositive.None? {
        return Err(Validation(ReviewTypeNull));
      }
      if review.userId.None? {
        return Err(Validation(ReviewUserIdNull));
      }
      if review.filmId.None? {
        return Err(Validation(ReviewFilmIdNull));
      }
      if userStorage.GetUserById(review.userId.value).Err? {
        return Err(Validation(Missing(UserEntity)));
      }
      if filmStorage.GetFilmById(review.filmId.value).Err? {
        return Err(Validation(Missing(FilmEntity)));
      }
      var created := reviewDao.Create(review);
      r := Ok(created);
    }

    /** `getById(id)`: the stored review, or EntityNotFoundException; a null
      id matches no row. */
    function GetById(id: Option<Id>): (r: Result<Review>)
      reads reviewDao
      ensures r.Ok? <==> id.Some? && id.value in reviewDao.reviews
      ensures r.Ok? ==> r.value == ToReview(id.value, reviewDao.reviews[id.value])
      ensures r.Err? ==> r.error == NotFound(ReviewEntity)
    {
      if id.None? then Err(NotFound(ReviewEntity))
      else match reviewDao.FindById(id.value)
        case Some(found) => Ok(found)
        case None => Err(NotFound(ReviewEntity))
    }

    /** `update(review)`: an unknown review id changes nothing. */
    method Update(review: Review) returns (r: Result<Review>)
      requires Valid()
      modifies reviewDao
      ensures Valid() && reviewDao.reactions == old(reviewDao.reactions)
      ensures r.Ok? <==> review.reviewId.Some? && review.reviewId.value in old(reviewDao.reviews)
      ensures r.Err? ==> r.error == NotFound(ReviewEntity) && reviewDao.reviews == old(reviewDao.reviews)
      ensures r.Ok? ==> r.value == review && reviewDao.reviews == old(reviewDao.reviews)[review.reviewId.value :=
        old(reviewDao.reviews)[review.reviewId.value].(content := review.content,
          isPositive := review.isPositive, useful := review.useful)]
    {
      var found := GetById(review.reviewId);
      if found.Err? {
        return Err(found.error);
      }
      var updated := reviewDao.Update(review);
      r := Ok(updated);
    }

    /** `delete(id)`: an unknown review id changes nothing. */
    method Delete(id: Id) returns (o: Outcome)
      requires Valid()
      modifies reviewDao
      ensures Valid() && reviewDao.reactions == old(reviewDao.reactions)
      ensures o.Done? <==> id in old(reviewDao.reviews)
      ensures o.Fail? ==> o.error == NotFound(ReviewEntity)
      ensures reviewDao.reviews == old(reviewDao.reviews) - {id}
    {
      var found := GetById(Some(id));
      if found.Err? {
        return Fail(found.error);
      }
      reviewDao.Delete(id);
      o := Done;
    }

    /** `getByFilmId(filmId, count)`: without a film, the most useful
      reviews of all; with one, the film must exist and only its reviews are
      listed. */
    method GetByFilmId(filmId: Option<Id>, count: nat) returns (r: Result<seq<Review>>)
      requires Valid()
      ensures r.Err? <==> filmId.Some? && filmId.value !in filmStorage.films
      ensures r.Err? ==> r.error == NotFound(FilmEntity)
      ensures r.Ok? ==> |r.value| == Min(count, |reviewDao.Selected(filmId)|)
      ensures r.Ok? ==> forall x :: x in r.value ==>
        x.reviewId.Some? && x.reviewId.value in reviewDao.Selected(filmId)
      ensures r.Ok? ==> filmId.Some? ==> forall x :: x in r.value ==> x.filmId == filmId
      ensures r.Ok? ==> SortedBy(MostUsefulFirst(), r.value)
      ensures r.Ok? ==> Distinct(r.value)
      ensures r.Ok? ==> forall x :: x in r.value ==> x == ToReview(x.reviewId.value, reviewDao.reviews[x.reviewId.value])
      ensures r.Ok? ==> forall id :: id in reviewDao.Selected(filmId) && ToReview(id, reviewDao.reviews[id]) !in r.value ==>
        forall i :: 0 <= i < |r.value| ==> r.value[i].useful >= reviewDao.reviews[id].useful
    {
      if filmId.Some? && filmStorage.GetFilmById(filmId.value).Err? {
        return Err(NotFound(FilmEntity));
      }
      var found := reviewDao.Find(filmId, count);
      r := Ok(found);
    }

    /** `addLike(reviewId, userId)`: the user must exist; the review is not
      checked. */
    method AddLike(reviewId: Id, userId: Id) returns (o: Outcome)
      requires Valid()
      modifies reviewDao
      ensures Valid()
      ensures o.Done? <==> userId in userStorage.users
      ensures o.Fail? ==> o.error == NotFound(UserEntity) && unchanged(reviewDao)
      ensures o.Done? ==>
        reviewDao.reactions == old(reviewDao.reactions)[(reviewId, userId) := true]
        && reviewDao.reviews.Keys == old(reviewDao.reviews.Keys)
        && (reviewId in reviewDao.reviews ==>
          reviewDao.reviews[reviewId].useful == Useful(reviewDao.reactions, reviewId))
        && reviewDao.reviews == WithRecomputedUseful(old(reviewDao.reviews), reviewDao.reactions, reviewId)
    {
      if userStorage.GetUserById(userId).Err? {
        return Fail(NotFound(UserEntity));
      }
      reviewDao.AddLike(reviewId, userId);
      o := Done;
    }

    /** `addDislike(reviewId, userId)`. */
    method AddDislike(reviewId: Id, userId: Id) returns (o: Outcome)
      requires Valid()
      modifies reviewDao
      ensures Valid()
      ensures o.Done? <==> userId in userStorage.users
      ensures o.Fail? ==> o.error == NotFound(UserEntity) && unchanged(reviewDao)
      ensures o.Done? ==>
        reviewDao.reactions == old(reviewDao.reactions)[(reviewId, userId) := false]
        && reviewDao.reviews.Keys == old(reviewDao.reviews.Keys)
        && (reviewId in reviewDao.reviews ==>
          reviewDao.reviews[reviewId].useful == Useful(reviewDao.reactions, reviewId))
        && reviewDao.reviews == WithRecomputedUseful(old(reviewDao.reviews), reviewDao.reactions, reviewId)
    {
      if userStorage.GetUserById(userId).Err? {
        return Fail(NotFound(UserEntity));
      }
      reviewDao.AddDislike(reviewId, userId);
      o := Done;
    }

    /** `removeLike(reviewId, userId)`. */
    method RemoveLike(reviewId: Id, userId: Id) returns (o: Outcome)
      requires Valid()
      modifies reviewDao
      ensures Valid()
      ensures o.Done? <==> userId in userStorage.users
      ensures o.Fail? ==> o.error == NotFound(UserEntity) && unchanged(reviewDao)
      ensures o.Done? ==>
        reviewDao.reactions == WithoutReaction(old(reviewDao.reactions), reviewId, userId, true)
        && reviewDao.reviews.Keys == old(reviewDao.reviews.Keys)
        && (reviewId in reviewDao.reviews ==>
          reviewDao.reviews[reviewId].useful == Useful(reviewDao.reactions, reviewId))
        && reviewDao.reviews == WithRecomputedUseful(old(reviewDao.reviews), reviewDao.reactions, reviewId)
    {
      if userStorage.GetUserById(userId).Err? {
        return Fail(NotFound(UserEntity));
      }
      reviewDao.RemoveLike(reviewId, userId);
      o := Done;
    }

    /** `removeDislike(reviewId, userId)`. */
    method RemoveDislike(reviewId: Id, userId: Id) returns (o: Outcome)
      requires Valid()
      modifies reviewDao
      ensures Valid()
      ensures o.Done? <==> userId in userStorage.users
      ensures o.Fail? ==> o.error == NotFound(UserEntity) && unchanged(reviewDao)
      ensures o.Done? ==>
        reviewDao.reactions == WithoutReaction(old(reviewDao.reactions), reviewId, userId, false)
        && reviewDao.reviews.Keys == old(reviewDao.reviews.Keys)
        && (reviewId in reviewDao.reviews ==>
          reviewDao.reviews[reviewId].useful == Useful(reviewDao.reactions, reviewId))
        && reviewDao.reviews == WithRecomputedUseful(old(reviewDao.reviews), reviewDao.reactions, reviewId)
    {
      if userStorage.GetUserById(userId).Err? {
        return Fail(NotFound(UserEntity));
      }
      reviewDao.RemoveDislike(reviewId, userId);
      o := Done;
    }
  }
}
