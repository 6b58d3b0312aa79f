/** The first in-memory `InMemoryFilmStorage`: films by id, each with the set
    of users who liked it. */
module MemoryFilmStorage {
  import opened Common
  import opened Model
  import opened Sorting
  import opened Collections

  /** `addLike`'s effect on the map: the user joins the film's like set when
      the film is stored. */
  function WithLike(films: map<Id, Film>, filmId: Id, userId: Id): map<Id, Film> {
    if filmId in films then films[filmId := films[filmId].(likes := films[filmId].likes + {userId})]
    else films
  }

  /** `removeLike`'s effect: the user leaves the film's like set. */
  function WithoutLike(films: map<Id, Film>, filmId: Id, userId: Id): map<Id, Film> {
    if filmId in films then films[filmId := films[filmId].(likes := films[filmId].likes - {userId})]
    else films
  }

  /** Every film is stored under its own id, and ids are positive. */
  ghost predicate Keyed(films: map<Id, Film>) {
    forall k :: k in films ==> k >= 1 && films[k].id == Some(k)
  }

  /** Liking is idempotent and touches only the liked film. */
  lemma AddLikeEffect(films: map<Id, Film>, filmId: Id, userId: Id)
    ensures WithLike(WithLike(films, filmId, userId), filmId, userId) == WithLike(films, filmId, userId)
    ensures WithLike(films, filmId, userId).Keys == films.Keys
    ensures filmId in films ==> userId in WithLike(films, filmId, userId)[filmId].likes
    ensures forall k :: k in films && k != filmId ==> WithLike(films, filmId, userId)[k] == films[k]
  {
    var once := WithLike(films, filmId, userId);
    if filmId in films {
      assert once[filmId].likes + {userId} == once[filmId].likes;
      assert once[filmId := once[filmId].(likes := once[filmId].likes + {userId})] == once;
    }
  }

  /** Removing a like touches only that film, and changes nothing when the
      film is missing or the user had not liked it. */
  lemma RemoveLikeEffect(films: map<Id, Film>, filmId: Id, userId: Id)
    ensures WithoutLike(films, filmId, userId).Keys == films.Keys
    ensures filmId in films ==> userId !in WithoutLike(films, filmId, userId)[filmId].likes
    ensures forall k :: k in films && k != filmId ==> WithoutLike(films, filmId, userId)[k] == films[k]
    ensures filmId !in films || userId !in films[filmId].likes ==> WithoutLike(films, filmId, userId) == films
  {
    if filmId in films && userId !in films[filmId].likes {
      var f := films[filmId];
      assert f.(likes := f.likes - {userId}) == f;
      assert films[filmId := f] == films;
    }
  }

  /** Ordering of `getTopFilms`: `comparingInt(f -> -likes.size())`, most
      liked first. */
  function MostLikedFirst(): (le: (Film, Film) -> bool) {
    ByKeyDescending((f: Film) => |f.likes|)
  }

  class InMemoryFilmStorage {
    var films: map<Id, Film>

    ghost predicate Valid()
      reads this
    {
      Keyed(films)
    }

    constructor()
      ensures films == map[] && Valid()
    {
      films := map[];
    }

    /** `findFilmById`: present exactly for a stored id. */
    function FindFilmById(id: Id): (r: Option<Film>)
      reads this
      ensures r.Some? <==> id in films
      ensures r.Some? ==> r.value == films[id]
    {
      if id in films then Some(films[id]) else None
    }

    /** `addFilm`: stores the film under one more than the largest id. */
    method AddFilm(film: Film) returns (stored: Film)
      requires Valid()
      modifies this
      ensures Valid()
      ensures stored.id.Some? && stored.id.value !in old(films)
      ensures forall k :: k in old(films) ==> k < stored.id.value
      ensures old(films) == map[] ==> stored.id == Some(1)
      ensures old(films) != map[] ==> stored.id.value - 1 in old(films)
      ensures stored == film.(id := stored.id)
      ensures films == old(films)[stored.id.value := stored]
    {
      var next := NextId(films);
      stored := film.(id := Some(next));
      films := films[next := stored];
    }

    /** `updateFilm`: replaces the stored film with the same id, if any. */
    method UpdateFilm(updatedFilm: Film) returns (r: Option<Film>)
      requires Valid()
      modifies this
      ensures Valid()
      ensures r.Some? <==> updatedFilm.id.Some? && updatedFilm.id.value in old(films)
      ensures r.Some? ==> r.value == updatedFilm && films == old(films)[updatedFilm.id.value := updatedFilm]
      ensures r.None? ==> films == old(films)
    {
      if updatedFilm.id.Some? && updatedFilm.id.value in films {
        films := films[updatedFilm.id.value := updatedFilm];
        r := Some(updatedFilm);
      } else {
        r := None;
      }
    }

    /** `addLike(filmId, userId)`. */
    method AddLike(filmId: Id, userId: Id)
      requires Valid()
      modifies this
      ensures Valid()
      ensures films == WithLike(old(films), filmId, userId)
    {
      if filmId in films {
        var film := films[filmId];
        films := films[filmId := film.(likes := film.likes + {userId})];
      }
    }

    /** `removeLike(filmId, userId)`. */
    method RemoveLike(filmId: Id, userId: Id)
      requires Valid()
      modifies this
      ensures Valid()
      ensures films == WithoutLike(old(films), filmId, userId)
    {
      if filmId in films {
        var film := films[filmId];
        films := films[filmId := film.(likes := film.likes - {userId})];
      }
    }

    /** `getTopFilms(topLimit)`: the stored films, most liked first, cut to
      `topLimit`; a negative limit is refused by `Stream.limit`. Films with
      equal like counts may come in any order. */
    method GetTopFilms(topLimit: int) returns (r: Result<seq<Film>>)
      requires Valid()
      ensures r.Err? <==> topLimit < 0
      ensures r.Err? ==> r.error == IllegalArgument
      ensures r.Ok? ==> |r.value| == Min(topLimit, |films|)
      ensures r.Ok? ==> forall f :: f in r.value ==> f in films.Values
      ensures r.Ok? ==> Distinct(r.value)
      ensures r.Ok? ==> SortedBy(MostLikedFirst(), r.value)
      ensures r.Ok? ==> forall f :: f in films.Values && f !in r.value ==>
        forall i :: 0 <= i < |r.value| ==> |r.value[i].likes| >= |f.likes|
    {
      if topLimit < 0 {
        return Err(IllegalArgument);
      }
      var values := SetToSeq(films.Values);
      forall k1, k2 | k1 in films && k2 in films && films[k1] == films[k2] ensures k1 == k2 {
        assert films[k1].id == Some(k1);
      }
      ValuesCount(films);
      ByKeyDescendingIsTotalPreorder((f: Film) => |f.likes|);
      TopNIsTop(MostLikedFirst(), values, topLimit);
      r := Ok(TopN(MostLikedFirst(), values, topLimit));
    }
  }
}
