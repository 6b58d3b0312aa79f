/** `FilmService`: checks over the first in-memory film and user stores. */
module FilmService {
  import opened Common
  import opened Model
  import opened Sorting
  import opened Validation
  import opened MemoryFilmStorage
  import MemoryUserStorage

  /** The checks of `addFilm`, in order: the name, then the release date. */
  function AddFilmCheck(film: Film): (r: Outcome)
    ensures r.Done? <==> IsValidName(film.name) && IsValidReleaseDate(film.releaseDate)
    ensures !IsValidName(film.name) ==> r == Fail(Validation(FilmNameRequired))
    ensures IsValidName(film.name) && !IsValidReleaseDate(film.releaseDate)
      ==> r == Fail(Validation(ReleaseDateTooEarly))
  {
    if !IsValidName(film.name) then Fail(Validation(FilmNameRequired))
    else if !IsValidReleaseDate(film.releaseDate) then Fail(Validation(ReleaseDateTooEarly))
    else Done
  }

  /** A film released on 27 December 1895 is refused for its date, whatever
      its (valid) name. */
  lemma DayBeforeFirstFilmRefused(film: Film)
    requires IsValidName(film.name) && film.releaseDate == Some(Dates.Date(1895, 12, 27))
    ensures AddFilmCheck(film) == Fail(Validation(ReleaseDateTooEarly))
  {
  }

  /** The checks of `addLike` and `removeLike`, in order: the film, then the
      user. */
  function LikeCheck(films: map<Id, Film>, users: map<Id, User>, filmId: Id, userId: Id): (r: Outcome)
    ensures r.Done? <==> filmId in films && userId in users
    ensures filmId !in films ==> r == Fail(NotFound(FilmEntity))
    ensures filmId in films && userId !in users ==> r == Fail(NotFound(UserEntity))
  {
    if filmId !in films then Fail(NotFound(FilmEntity))
    else if userId !in users then Fail(NotFound(UserEntity))
    else Done
  }

  class FilmService {
    const filmStorage: InMemoryFilmStorage
    const userStorage: MemoryUserStorage.InMemoryUserStorage

    ghost predicate Valid()
      reads this, filmStorage, userStorage
    {
      filmStorage.Valid() && userStorage.Valid()
    }

    constructor(films: InMemoryFilmStorage, users: MemoryUserStorage.InMemoryUserStorage)
      ensures filmStorage == films && userStorage == users
    {
      filmStorage := films;
      userStorage := users;
    }

    /** `addFilm`: validates, then stores the film under a fresh id. */
    method AddFilm(film: Film) returns (r: Result<Film>)
      requires Valid()
      modifies filmStorage
      ensures Valid()
      ensures r.Err? <==> AddFilmCheck(film).Fail?
      ensures r.Err? ==> r.error == AddFilmCheck(film).error && filmStorage.films == old(filmStorage.films)
      ensures r.Ok? ==> (r.value == film.(id := r.value.id) && r.value.id.Some?
        && r.value.id.value !in old(filmStorage.films)
        && filmStorage.films == old(filmStorage.films)[r.value.id.value := r.value])
    {
      var check := AddFilmCheck(film);
      if check.Fail? {
        return Err(check.error);
      }
      var stored := filmStorage.AddFilm(film);
      r := Ok(stored);
    }

    /** `getFilmById`: the stored film or EntityNotFoundException. */
    function GetFilmById(filmId: Id): (r: Result<Film>)
      reads filmStorage
      ensures r.Ok? <==> filmId in filmStorage.films
      ensures r.Ok? ==> r.value == filmStorage.films[filmId]
      ensures r.Err? ==> r.error == NotFound(FilmEntity)
    {
      match filmStorage.FindFilmById(filmId)
      case Some(f) => Ok(f)
      case None => Err(NotFound(FilmEntity))
    }

    /** `updateFilm`: EntityNotFoundException when no film has that id. */
    method UpdateFilm(film: Film) returns (r: Result<Film>)
      requires Valid()
      modifies filmStorage
      ensures Valid()
      ensures r.Ok? <==> film.id.Some? && film.id.value in old(filmStorage.films)
      ensures r.Ok? ==> r.value == film && filmStorage.films == old(filmStorage.films)[film.id.value := film]
      ensures r.Err? ==> r.error == NotFound(FilmEntity) && filmStorage.films == old(filmStorage.films)
    {
      var found := filmStorage.UpdateFilm(film);
      r := if found.Some? then Ok(found.value) else Err(NotFound(FilmEntity));
    }

    /** `addLike`: the film, then the user, must exist; then the like is
      recorded. */
    method AddLike(filmId: Id, userId: Id) returns (o: Outcome)
      requires Valid()
      modifies filmStorage
      ensures Valid()
      ensures o == LikeCheck(old(filmStorage.films), userStorage.users, filmId, userId)
      ensures o.Fail? ==> filmStorage.films == old(filmStorage.films)
      ensures o.Done? ==> filmStorage.films == WithLike(old(filmStorage.films), filmId, userId)
    {
      if filmStorage.FindFilmById(filmId).None? {
        return Fail(NotFound(FilmEntity));
      }
      if userStorage.FindUserById(userId).None? {
        return Fail(NotFound(UserEntity));
      }
      filmStorage.AddLike(filmId, userId);
      o := Done;
    }

    /** `removeLike`: the same two checks, then the like is removed. */
    method RemoveLike(filmId: Id, userId: Id) returns (o: Outcome)
      requires Valid()
      modifies filmStorage
      ensures Valid()
      ensures o == LikeCheck(old(filmStorage.films), userStorage.users, filmId, userId)
      ensures o.Fail? ==> filmStorage.films == old(filmStorage.films)
      ensures o.Done? ==> filmStorage.films == WithoutLike(old(filmStorage.films), filmId, userId)
    {
      if filmStorage.FindFilmById(filmId).None? {
        return Fail(NotFound(FilmEntity));
      }
      if userStorage.FindUserById(userId).None? {
        return Fail(NotFound(UserEntity));
      }
      filmStorage.RemoveLike(filmId, userId);
      o := Done;
    }

    /** `getTopRatedFilms(count)`: hands `count` to the store unchanged (the
      `max(count, 10)` it computes is never used). */
    method GetTopRatedFilms(count: int) returns (r: Result<seq<Film>>)
      requires Valid()
      ensures r.Err? <==> count < 0
      ensures r.Err? ==> r.error == IllegalArgument
      ensures r.Ok? ==> |r.value| == Min(count, |filmStorage.films|)
      ensures r.Ok? ==> SortedBy(MostLikedFirst(), r.value)
      ensures r.Ok? ==> forall f :: f in r.value ==> f in filmStorage.films.Values
      ensures r.Ok? ==> Distinct(r.value)
      ensures r.Ok? ==> forall f :: f in filmStorage.films.Values && f !in r.value ==>
        forall i :: 0 <= i < |r.value| ==> |r.value[i].likes| >= |f.likes|
    {
      r := filmStorage.GetTopFilms(count);
    }
  }
}
