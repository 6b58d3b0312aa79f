/** The `ReviewMapper` of the storage layer: copies all five request fields. */
module StorageReviewMapper {
  import opened Model

  /** `toReview(reviewDto)`: a fresh review with the five fields copied. */
  function ToReview(d: ReviewDto): Review {
    NewReview(d.reviewId, d.content, d.isPositive, d.userId, d.filmId)
  }

  /** `toReviewDto(review)`: the five fields copied back. */
  function ToReviewDto(r: Review): ReviewDto {
    ReviewDto(r.reviewId, r.content, r.isPositive, r.userId, r.filmId)
  }

  /** Mapping a request to a review and back loses nothing. */
  lemma RequestRoundTrip(d: ReviewDto)
    ensures ToReviewDto(ToReview(d)) == d
  {
  }

  /** Mapping a review to a request and back keeps exactly the reviews that
      carry the defaults of a new one: useful 0, nobody liking or disliking. */
  lemma ReviewRoundTrip(r: Review)
    ensures ToReview(ToReviewDto(r)) == r <==> r.useful == 0 && r.likes == {} && r.dislikes == {}
    ensures ToReviewDto(ToReview(ToReviewDto(r))) == ToReviewDto(r)
  {
  }
}

/** The `ReviewMapper` component of the web layer: copies four fields and
    leaves the review id out in both directions. */
module ReviewMapper {
  import opened Common
  import opened Model

  function ToReview(d: ReviewDto): Review {
    NewReview(None, d.content, d.isPositive, d.userId, d.filmId)
  }

  function ToReviewDto(r: Review): ReviewDto {
    ReviewDto(None, r.content, r.isPositive, r.userId, r.filmId)
  }

  /** The round trip gives the request back with its review id cleared, and
      the review in between is a new one whatever the request says. */
  lemma RequestRoundTrip(d: ReviewDto)
    ensures ToReviewDto(ToReview(d)) == d.(reviewId := None)
    ensures ToReviewDto(ToReview(d)) == d <==> d.reviewId.None?
    ensures ToReview(d).reviewId.None? && ToReview(d).useful == 0
  {
  }

  /** `ReviewController.update`: maps the request, then refuses a review
      without an id before the service sees it. */
  function ControllerUpdate(d: ReviewDto): (r: Result<Review>)
    ensures r.Ok? ==> r.value.reviewId.Some?
  {
    var review := ToReview(d);
    if review.reviewId.None? then Err(Validation(ReviewIdNull)) else Ok(review)
  }

  /** As written, every update request is refused, even one naming its review. */
  lemma ControllerUpdateAlwaysRejected(d: ReviewDto)
    ensures ControllerUpdate(d) == Err(Validation(ReviewIdNull))
  {
  }

  /** The mapping the update path needs: the four fields and the review id. */
  function ToReviewKeepingId(d: ReviewDto): Review {
    NewReview(d.reviewId, d.content, d.isPositive, d.userId, d.filmId)
  }

  /** The update guard over the id-keeping mapping. */
  function CorrectedControllerUpdate(d: ReviewDto): (r: Result<Review>)
    ensures r.Ok? ==> r.value.reviewId.Some?
  {
    var review := ToReviewKeepingId(d);
    if review.reviewId.None? then Err(Validation(ReviewIdNull)) else Ok(review)
  }

  /** With the id kept, a request is refused exactly when it names no review,
      and an accepted one reaches the service with its fields intact. */
  lemma CorrectedUpdateAcceptsNamedReviews(d: ReviewDto)
    ensures CorrectedControllerUpdate(d).Ok? <==> d.reviewId.Some?
    ensures CorrectedControllerUpdate(d).Err? ==> CorrectedControllerUpdate(d).error == Validation(ReviewIdNull)
    ensures CorrectedControllerUpdate(d).Ok? ==>
      var r := CorrectedControllerUpdate(d).value;
      r.reviewId == d.reviewId && ToReviewDto(r) == d.(reviewId := None)
  {
  }
}
