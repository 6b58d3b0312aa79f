/** The counter-based `InMemoryFilmStorage` of the `storage.films` package:
    films by id, ids handed out by a counter starting at 1. */
module CountingFilmStorage {
  import opened Common
  import opened Model
  import opened Collections

  class InMemoryFilmStorage {
    var films: map<Id, Film>
    /** The next id to hand out. */
    var id: Id

    /** Every stored film sits under its own id, below the counter. */
    ghost predicate Valid()
      reads this
    {
      id >= 1 && forall k :: k in films ==> 1 <= k < id && films[k].id == Some(k)
    }

    constructor()
      ensures films == map[] && id == 1 && Valid()
    {
      films := map[];
      id := 1;
    }

    /** `addFilms`: refuses a null film; otherwise stores it under the counter
      and advances the counter. */
    method AddFilms(film: Option<Film>) returns (r: Result<Film>)
      requires Valid()
      modifies this
      ensures Valid()
      ensures r.Err? <==> film.None?
      ensures r.Err? ==> r.error == IllegalArgument && films == old(films) && id == old(id)
      ensures r.Ok? ==> (r.value == film.value.(id := Some(old(id)))
        && films == old(films)[old(id) := r.value] && id == old(id) + 1)
      ensures r.Ok? ==> old(id) !in old(films)
    {
      if film.None? {
        return Err(IllegalArgument);
      }
      var stored := film.value.(id := Some(id));
      id := id + 1;
      films := films[stored.id.value := stored];
      r := Ok(stored);
    }

    /** `updateFilms`: replaces a stored film; an unknown id is
      EntityNotFoundException and nothing changes. */
    method UpdateFilms(film: Film) returns (r: Result<Film>)
      requires Valid()
      modifies this
      ensures Valid() && id == old(id)
      ensures r.Ok? <==> film.id.Some? && film.id.value in old(films)
      ensures r.Ok? ==> r.value == film && films == old(films)[film.id.value := film]
      ensures r.Err? ==> r.error == NotFound(FilmEntity) && films == old(films)
    {
      if film.id.Some? && film.id.value in films {
        films := films[film.id.value := film];
        r := Ok(film);
      } else {
        r := Err(NotFound(FilmEntity));
      }
    }

    /** `getFilm`: every stored film once, in no particular order. */
    method GetFilm() returns (r: seq<Film>)
      requires Valid()
      ensures |r| == |films|
      ensures forall f :: f in r <==> f in films.Values
    {
      forall k1, k2 | k1 in films && k2 in films && films[k1] == films[k2] ensures k1 == k2 {
        assert films[k1].id == Some(k1);
      }
      ValuesCount(films);
      r := SetToSeq(films.Values);
    }

    /** `getFilmById`: the stored film, or EntityNotFoundException. */
    function GetFilmById(filmId: Id): (r: Result<Film>)
      reads this
      ensures r.Ok? <==> filmId in films
      ensures r.Ok? ==> r.value == films[filmId]
      ensures r.Err? ==> r.error == NotFound(FilmEntity)
    {
      if filmId in films then Ok(films[filmId]) else Err(NotFound(FilmEntity))
    }
  }
}
