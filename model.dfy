/** The records the services pass around. Object references that Java lets
    be null are `Option`s; the `friends`, `likes` and `directors` collections
    the stores read and write are part of the records. */
module Model {
  import opened Common
  import opened Dates

  datatype Director = Director(id: Id, name: string)

  /** A user as the in-memory stores keep it, with its friend set. */
  datatype User = User(
    id: Option<Id>,
    email: Option<string>,
    login: Option<string>,
    name: Option<string>,
    birthday: Option<Date>,
    friends: set<Id>)

  /** A film as the in-memory stores keep it, with the ids of the users who
      liked it. */
  datatype Film = Film(
    id: Option<Id>,
    name: Option<string>,
    releaseDate: Option<Date>,
    duration: Option<int>,
    likes: set<Id>)

  /** A row of the `film` table joined with its `film_genre` and
      `film_director` rows. */
  datatype FilmRow = FilmRow(
    id: Id,
    name: string,
    releaseDate: Option<Date>,
    genres: set<Id>,
    directors: seq<Director>)

  /** A row of the `users` table. */
  datatype UserRow = UserRow(id: Id, email: string, login: string, name: string)

  /** One enumeration each for the two identical copies of `EventType` and
      `Operation`. */
  datatype EventType = Like | ReviewEvent | Friend
  datatype Operation = Remove | Add | Update

  /** A row of the `events` table. */
  datatype Event = Event(
    eventId: Id,
    timestamp: int,
    userId: Id,
    eventType: EventType,
    operation: Operation,
    entityId: Id)

  /** A review; a fresh one is useful 0 with no likes and no dislikes. */
  datatype Review = Review(
    reviewId: Option<Id>,
    content: Option<string>,
    isPositive: Option<bool>,
    userId: Option<Id>,
    filmId: Option<Id>,
    useful: int,
    likes: set<Id>,
    dislikes: set<Id>)

  /** `new Review()` followed by the given setters. */
  function NewReview(
    reviewId: Option<Id>, content: Option<string>, isPositive: Option<bool>,
    userId: Option<Id>, filmId: Option<Id>): Review
  {
    Review(reviewId, content, isPositive, userId, filmId, 0, {}, {})
  }

  /** The review request body. */
  datatype ReviewDto = ReviewDto(
    reviewId: Option<Id>,
    content: Option<string>,
    isPositive: Option<bool>,
    userId: Option<Id>,
    filmId: Option<Id>)
}
