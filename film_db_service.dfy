/** `FilmDbService`: the film rules over the database stores: like guards,
    the release-date fallback of an update, and the three ranking pipelines
    (popular, common, search). */
module FilmDbService {
  import opened Common
  import opened Dates
  import opened Model
  import opened Text
  import opened Sorting
  import opened Collections
  import opened Validation
  import opened FilmPopularity
  import opened FilmSearchMatcher
  import opened SearchParameterParser
  import FilmDbStorage
  import UserDbStorage
  import LikeDao

  /** `likes < 0 ? 0 : likes` over `checkLikes`: a count of rows is never
      negative, so the clamp keeps the count as it is. */
  function ClampedLikes(likes: set<(Id, Id)>, filmId: Id): (r: int)
    ensures r == LikeDao.CountFor(likes, filmId)
    ensures r == 0 <==> forall u :: (u, filmId) !in likes
  {
    var n := LikeDao.CountFor(likes, filmId);
    if n < 0 then 0 else n
  }

  /** `Comparator.reverseOrder()` on release dates: `a` may come before `b`
      when it is not earlier. A missing date is taken as the earliest. */
  predicate NotEarlier(a: Option<Date>, b: Option<Date>) {
    b.None? || (a.Some? && !IsBefore(a.value, b.value))
  }

  lemma NotEarlierIsTotalPreorder()
    ensures forall a, b :: NotEarlier(a, b) || NotEarlier(b, a)
    ensures forall a, b, c :: NotEarlier(a, b) && NotEarlier(b, c) ==> NotEarlier(a, c)
  {
    forall a: Option<Date>, b: Option<Date> ensures NotEarlier(a, b) || NotEarlier(b, a) {
      if a.Some? && b.Some? {
        IsBeforeStrictTotalOrder(a.value, b.value, a.value);
      }
    }
    forall a: Option<Date>, b: Option<Date>, c: Option<Date> | NotEarlier(a, b) && NotEarlier(b, c)
      ensures NotEarlier(a, c)
    {
      if c.Some? {
        IsBeforeStrictTotalOrder(a.value, b.value, c.value);
        IsBeforeStrictTotalOrder(a.value, c.value, b.value);
      }
    }
  }

  /** The order of `getPopularFilms`: more (clamped) likes first, and among
      equal counts the later release first. */
  function PopularFirst(likes: set<(Id, Id)>): (le: (FilmRow, FilmRow) -> bool) {
    (a: FilmRow, b: FilmRow) =>
      ClampedLikes(likes, a.id) > ClampedLikes(likes, b.id)
      || (ClampedLikes(likes, a.id) == ClampedLikes(likes, b.id) && NotEarlier(a.releaseDate, b.releaseDate))
  }

  lemma PopularFirstIsTotalPreorder(likes: set<(Id, Id)>)
    ensures TotalPreorder(PopularFirst(likes))
  {
    NotEarlierIsTotalPreorder();
  }

  /** Along a list in popular order the clamped counts never rise, and
      among equal counts the release dates never rise. */
  lemma PopularListOrder(likes: set<(Id, Id)>, s: seq<FilmRow>)
    requires SortedBy(PopularFirst(likes), s)
    ensures forall i, j :: 0 <= i < j < |s| ==> ClampedLikes(likes, s[i].id) >= ClampedLikes(likes, s[j].id)
    ensures forall i, j ::
      (0 <= i < j < |s| && ClampedLikes(likes, s[i].id) == ClampedLikes(likes, s[j].id))
      ==> NotEarlier(s[i].releaseDate, s[j].releaseDate)
  {
    forall i, j | 0 <= i < j < |s|
      ensures ClampedLikes(likes, s[i].id) >= ClampedLikes(likes, s[j].id)
      ensures ClampedLikes(likes, s[i].id) == ClampedLikes(likes, s[j].id) ==> NotEarlier(s[i].releaseDate, s[j].releaseDate)
    {
      assert PopularFirst(likes)(s[i], s[j]);
    }
  }

  /** The date `updateFilm` writes: the requested one when it is valid,
      otherwise the film's current one. */
  function EffectiveReleaseDate(requested: Option<Date>, current: Option<Date>): (r: Option<Date>)
    ensures IsValidReleaseDate(requested) ==> r == requested
    ensures !IsValidReleaseDate(requested) ==> r == current
    ensures IsValidReleaseDate(current) ==> IsValidReleaseDate(r)
  {
    if requested.None? || IsBefore(requested.value, FirstFilmDate) then current else requested
  }

  /** The films that `FilmSearchMatcher.matches` accepts. */
  function MatchingFilms(films: map<Id, FilmRow>, query: string, params: seq<string>): set<FilmRow> {
    set x | x in films.Values && Matches(x, query, params)
  }

  /** The checks of `checkExistence`, in order: the film, then the user. */
  function ExistenceCheck(films: map<Id, FilmRow>, users: map<Id, UserRow>, userId: Id, filmId: Id): (r: Outcome)
    ensures r.Done? <==> filmId in films && userId in users
    ensures filmId !in films ==> r == Fail(NotFound(FilmEntity))
    ensures filmId in films && userId !in users ==> r == Fail(NotFound(UserEntity))
  {
    if filmId !in films then Fail(NotFound(FilmEntity))
    else if userId !in users then Fail(NotFound(UserEntity))
    else Done
  }

  class FilmDbService {
    const filmStorage: FilmDbStorage.FilmDbStorage
    const userStorage: UserDbStorage.UserDbStorage
    const likeDao: LikeDao.LikeDao
    /** The comparator built once at start-up from the like counts of
        that moment. */
    const comparator: FilmPopularityComparator

    ghost predicate Valid()
      reads this, filmStorage
    {
      filmStorage.Valid()
    }

    constructor(films: FilmDbStorage.FilmDbStorage, users: UserDbStorage.UserDbStorage,
                likes: LikeDao.LikeDao, popularity: FilmPopularityComparator)
      ensures filmStorage == films && userStorage == users && likeDao == likes && comparator == popularity
    {
      filmStorage := films;
      userStorage := users;
      likeDao := likes;
      comparator := popularity;
    }

    /** `addLike(userId, filmId)`: the film, then the user, must exist;
        then the row is inserted. */
    method AddLike(userId: Id, filmId: Id) returns (o: Outcome)
      requires Valid()
      requires filmId in filmStorage.films && userId in userStorage.users ==> (userId, filmId) !in likeDao.likes
      modifies likeDao
      ensures o == ExistenceCheck(filmStorage.films, userStorage.users, userId, filmId)
      ensures o.Fail? ==> likeDao.likes == old(likeDao.likes)
      ensures o.Done? ==> likeDao.likes == old(likeDao.likes) + {(userId, filmId)}
    {
      if filmStorage.GetFilmById(filmId).Err? {
        return Fail(NotFound(FilmEntity));
      }
      if userStorage.GetUserById(userId).Err? {
        return Fail(NotFound(UserEntity));
      }
      likeDao.AddLike(userId, filmId);
      o := Done;
    }

    /** `deleteLikeFilm(filmId, userId)`: deletes the row without checking
        film or user. */
    method DeleteLikeFilm(filmId: Id, userId: Id)
      modifies likeDao
      ensures likeDao.likes == old(likeDao.likes) - {(userId, filmId)}
    {
      likeDao.DeleteLike(userId, filmId);
    }

    /** `getPopularFilms(topNumber, genreId, year)`: IllegalArgumentException
        unless `topNumber` is positive; otherwise the first `topNumber` of the
        filtered films, most liked first and, among equal counts, latest
        released first. */
    method GetPopularFilms(topNumber: int, genreId: Option<int>, year: Option<int>) returns (r: Result<seq<FilmRow>>)
      requires Valid()
      ensures r.Err? <==> topNumber <= 0
      ensures r.Err? ==> r.error == IllegalArgument
      ensures r.Ok? ==> |r.value| == Min(topNumber, |filmStorage.Filtered(genreId, year)|)
      ensures r.Ok? ==> forall x :: x in r.value ==> x in filmStorage.Filtered(genreId, year)
      ensures r.Ok? ==> Distinct(r.value)
      ensures r.Ok? ==> forall i, j :: 0 <= i < j < |r.value| ==>
        ClampedLikes(likeDao.likes, r.value[i].id) >= ClampedLikes(likeDao.likes, r.value[j].id)
      ensures r.Ok? ==> forall i, j ::
        (0 <= i < j < |r.value| && ClampedLikes(likeDao.likes, r.value[i].id) == ClampedLikes(likeDao.likes, r.value[j].id))
        ==> NotEarlier(r.value[i].releaseDate, r.value[j].releaseDate)
      ensures r.Ok? ==> forall x :: x in filmStorage.Filtered(genreId, year) && x !in r.value ==>
        forall i :: 0 <= i < |r.value| ==> PopularFirst(likeDao.likes)(r.value[i], x)
    {
      if topNumber <= 0 {
        return Err(IllegalArgument);
      }
      var films := filmStorage.GetFilteredFilms(genreId, year);
      var le := PopularFirst(likeDao.likes);
      var top := TopN(le, films, topNumber);
      PopularFirstIsTotalPreorder(likeDao.likes);
      TopNIsTop(le, films, topNumber);
      PopularListOrder(likeDao.likes, top);
      assert forall x :: x in top ==> x in films;
      r := Ok(top);
    }

    /** `updateFilm(film)`: EntityNotFoundException unless a film has that
        id; a missing or too early release date is replaced by the current
        one before the row is updated; then the film's genre and director
        links are rewritten from the request's `genres` and `directors`
        (none when null). */
    method UpdateFilm(film: Film, genres: Option<set<Id>>, directors: Option<seq<Director>>) returns (r: Result<Film>)
      requires Valid()
      modifies filmStorage
      ensures Valid()
      ensures film.id.None? || film.id.value !in old(filmStorage.films) ==>
        r == Err(NotFound(FilmEntity)) && filmStorage.films == old(filmStorage.films)
      ensures film.id.Some? && film.id.value in old(filmStorage.films) && film.name.None? ==>
        r == Err(NullValue) && filmStorage.films == old(filmStorage.films)
      ensures r.Ok? <==> film.id.Some? && film.id.value in old(filmStorage.films) && film.name.Some?
      ensures r.Ok? ==> r.value == film.(releaseDate :=
        EffectiveReleaseDate(film.releaseDate, old(filmStorage.films)[film.id.value].releaseDate))
      ensures r.Ok? ==> filmStorage.films == old(filmStorage.films)[film.id.value :=
        FilmRow(film.id.value, film.name.value, r.value.releaseDate,
          FilmDbStorage.LinkedGenres(genres), FilmDbStorage.LinkedDirectors(directors))]
    {
      if film.id.None? {
        return Err(NotFound(FilmEntity));
      }
      var current := filmStorage.GetFilmById(film.id.value);
      if current.Err? {
        return Err(NotFound(FilmEntity));
      }
      var releaseDate := EffectiveReleaseDate(film.releaseDate, current.value.releaseDate);
      r := filmStorage.UpdateFilm(film.(releaseDate := releaseDate));
      if r.Ok? {
        ghost var updated := filmStorage.films;
        assert film.id.value in updated;
        filmStorage.RewriteLinks(film.id.value, genres, directors);
        assert filmStorage.films.Keys == updated.Keys;
        assert forall k :: k in updated && k != film.id.value ==> filmStorage.films[k] == updated[k];
        assert filmStorage.films == updated[film.id.value := filmStorage.films[film.id.value]];
      }
    }

    /** `getCommonFilms(userId, friendId)`: both users must exist; then the
        films both liked, most liked first (no tie-break). */
    method GetCommonFilms(userId: Id, friendId: Id) returns (r: Result<seq<FilmRow>>)
      requires Valid()
      ensures r.Err? <==> userId !in userStorage.users || friendId !in userStorage.users
      ensures r.Err? ==> r.error == NotFound(UserEntity)
      ensures r.Ok? ==> forall x :: x in r.value <==>
        x in filmStorage.films.Values && (userId, x.id) in likeDao.likes && (friendId, x.id) in likeDao.likes
      ensures r.Ok? ==> Distinct(r.value)
      ensures r.Ok? ==> forall i, j :: 0 <= i < j < |r.value| ==>
        LikeDao.CountFor(likeDao.likes, r.value[i].id) >= LikeDao.CountFor(likeDao.likes, r.value[j].id)
    {
      if userStorage.GetUserById(userId).Err? || userStorage.GetUserById(friendId).Err? {
        return Err(NotFound(UserEntity));
      }
      var common := likeDao.GetLikedFilms(userId) * likeDao.GetLikedFilms(friendId);
      if common == {} {
        assert forall x: FilmRow :: (userId, x.id) in likeDao.likes && (friendId, x.id) in likeDao.likes ==> x.id in common;
        return Ok([]);
      }
      var films := filmStorage.GetFilmsByIds(common);
      var likesCountMap := map filmId | filmId in common :: likeDao.GetLikesCount(filmId);
      var le := ByKeyDescending((f: FilmRow) => if f.id in likesCountMap then likesCountMap[f.id] else 0);
      var sorted := Sort(le, films);
      ByKeyDescendingIsTotalPreorder((f: FilmRow) => if f.id in likesCountMap then likesCountMap[f.id] else 0);
      SortKeepsElements(le, films);
      forall i, j | 0 <= i < j < |sorted|
        ensures LikeDao.CountFor(likeDao.likes, sorted[i].id) >= LikeDao.CountFor(likeDao.likes, sorted[j].id)
      {
        assert sorted[i] in films && sorted[j] in films;
        assert le(sorted[i], sorted[j]);
      }
      r := Ok(sorted);
    }

    /** `searchFilms(query, by)`: an unknown field in `by` is
        IllegalArgumentException before anything is read; otherwise the
        films matching the lower-cased query in the named fields, ordered by
        the start-up comparator. */
    method SearchFilms(query: string, fields: string) returns (r: Result<seq<FilmRow>>)
      requires Valid()
      ensures r.Err? <==> ParseSearchParameters(fields).Err?
      ensures r.Err? ==> r.error == IllegalArgument
      ensures r.Ok? ==> forall x :: x in r.value <==>
        x in filmStorage.films.Values && Matches(x, ToLower(query), JavaSplit(fields, ','))
      ensures r.Ok? ==> Distinct(r.value)
      ensures r.Ok? ==> SortedBy(NotAfter(comparator), r.value)
      ensures r.Ok? ==> forall i, j :: 0 <= i < j < |r.value| ==>
        Likes(comparator, r.value[i]) >= Likes(comparator, r.value[j])
    {
      var parsed := ParseSearchParameters(fields);
      if parsed.Err? {
        return Err(IllegalArgument);
      }
      var searchParams := parsed.value;
      var lowerCaseQuery := ToLower(query);
      var matching := SetToSeq(MatchingFilms(filmStorage.films, lowerCaseQuery, searchParams));
      var sorted := Sort(NotAfter(comparator), matching);
      NotAfterIsTotalPreorder(comparator);
      SortKeepsElements(NotAfter(comparator), matching);
      SortedByPopularity(comparator, sorted);
      assert searchParams == JavaSplit(fields, ',');
      assert forall x :: x in sorted <==> x in MatchingFilms(filmStorage.films, ToLower(query), JavaSplit(fields, ','));
      r := Ok(sorted);
    }
  }
}
