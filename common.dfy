/** Identifiers, nullable values and the exceptions the services raise. */
module Common {

  /** A `Long` identifier of a user, film, review or event. */
  type Id = int

  /** A Java reference that may be null. */
  datatype Option<T> = None | Some(value: T)

  /** The kind of record a lookup failed to find. */
  datatype Entity = UserEntity | FilmEntity | ReviewEntity

  /** Why a ValidationException was raised; stands for its message. */
  datatype Reason =
    | FilmNameRequired        // FilmService: the film name is mandatory
    | ReleaseDateTooEarly     // FilmService: not before 28 December 1895
    | UserAlreadyRegistered   // counter storage: the id is already taken
    | ReviewContentBlank
    | ReviewTypeNull
    | ReviewUserIdNull
    | ReviewFilmIdNull
    | ReviewIdNull            // the review controller's update: no review id
    | Missing(entity: Entity) // an EntityNotFoundException turned into a ValidationException

  /** The exceptions of the core: EntityNotFoundException, ValidationException,
      IllegalArgumentException, UnsupportedOperationException, and a statement
      refused for a null value (a NullPointerException from `Date.valueOf`, or
      a NULL written to a NOT NULL column). */
  datatype Error =
    | NotFound(entity: Entity)
    | Validation(reason: Reason)
    | IllegalArgument
    | Unsupported
    | NullValue

  /** A value or the exception thrown instead of returning it. */
  datatype Result<T> = Ok(value: T) | Err(error: Error)

  /** Completion of a `void` method: normal, or by an exception. */
  datatype Outcome = Done | Fail(error: Error)

  function Min(a: int, b: int): int { if a <= b then a else b }
}
