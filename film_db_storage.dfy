/** `FilmDbStorage`: the `film` table with its genre and director links, the
    statements `getFilteredFilms` and `searchFilms` build, and the lookups
    that turn a missing row into EntityNotFoundException. */
module FilmDbStorage {
  import opened Common
  import opened Dates
  import opened Model
  import opened Text
  import opened Sorting
  import opened Collections

  /** The fixed pieces of SQL text the two builders put together. */
  datatype Fragment =
    | SelectFilms          // getFilteredFilms
    | GenreFilter
    | And
    | Where
    | YearFilter
    | SelectDistinct       // searchFilms
    | DirectorJoins
    | WhereKeyword
    | TitleLike
    | DirectorLike
    | LikeEnd
    | Or
    | OrderByRate

  function FragmentText(f: Fragment): string {
    match f
    case SelectFilms => "SELECT f.* FROM film f"
    case GenreFilter => " JOIN film_genre fg ON f.film_id = fg.film_id WHERE fg.genre_id = "
    case And => " AND"
    case Where => " WHERE"
    case YearFilter => " EXTRACT(YEAR FROM f.release_date) = "
    case SelectDistinct => "SELECT DISTINCT f.* FROM films f "
    case DirectorJoins =>
      "LEFT JOIN film_director fd ON f.film_id = fd.film_id LEFT JOIN directors d ON fd.director_id = d.director_id "
    case WhereKeyword => "WHERE "
    case TitleLike => "LOWER(f.name) LIKE LOWER(CONCAT('%', "
    case DirectorLike => "LOWER(d.name) LIKE LOWER(CONCAT('%', "
    case LikeEnd => ", '%'))"
    case Or => " OR "
    case OrderByRate => " ORDER BY f.rate DESC"
  }

  /** A statement as the text between its `?` placeholders. */
  datatype Token = Sql(fragment: Fragment) | Placeholder
  type Statement = seq<Token>

  /** The number of `?` placeholders in a statement. */
  function Placeholders(st: Statement): nat {
    multiset(st)[Placeholder]
  }

  /** The statement of `getFilteredFilms(genreId, year)`. */
  function FilteredSql(genreId: Option<int>, year: Option<int>): Statement {
    [Sql(SelectFilms)]
    + (if genreId.Some? then [Sql(GenreFilter), Placeholder] else [])
    + (if year.Some? then [Sql(if genreId.Some? then And else Where), Sql(YearFilter), Placeholder] else [])
  }

  /** Its parameters: the genre, then the year, each only when given. */
  function FilteredParams(genreId: Option<int>, year: Option<int>): seq<int> {
    (if genreId.Some? then [genreId.value] else []) + (if year.Some? then [year.value] else [])
  }

  /** Each given filter contributes one placeholder and one parameter, genre
      before year; without filters the statement is the bare select. */
  lemma FilteredQueryShape(genreId: Option<int>, year: Option<int>)
    ensures Placeholders(FilteredSql(genreId, year)) == |FilteredParams(genreId, year)|
    ensures |FilteredParams(genreId, year)| == (if genreId.Some? then 1 else 0) + (if year.Some? then 1 else 0)
    ensures genreId.Some? ==> FilteredParams(genreId, year)[0] == genreId.value
    ensures year.Some? ==> FilteredParams(genreId, year)[|FilteredParams(genreId, year)| - 1] == year.value
    ensures genreId.None? && year.None? ==> FilteredSql(genreId, year) == [Sql(SelectFilms)]
  {
    var head: Statement := [Sql(SelectFilms)];
    var genre: Statement := if genreId.Some? then [Sql(GenreFilter), Placeholder] else [];
    var tail: Statement := if year.Some? then [Sql(if genreId.Some? then And else Where), Sql(YearFilter), Placeholder] else [];
    assert FilteredSql(genreId, year) == head + genre + tail;
    assert multiset(head + genre + tail) == multiset(head) + multiset(genre) + multiset(tail);
    assert multiset(head)[Placeholder] == 0;
    assert multiset(genre)[Placeholder] == (if genreId.Some? then 1 else 0);
    assert multiset(tail)[Placeholder] == (if year.Some? then 1 else 0);
  }

  /** `getFilteredFilms` builds its statement with a StringBuilder and its
      parameters with a list, appending a clause per given filter; what the
      result looks like is `FilteredQueryShape`. */
  method BuildFilteredQuery(genreId: Option<int>, year: Option<int>) returns (sql: Statement, params: seq<int>)
    ensures sql == FilteredSql(genreId, year) && params == FilteredParams(genreId, year)
  {
    sql := [Sql(SelectFilms)];
    params := [];
    if genreId.Some? {
      sql := sql + [Sql(GenreFilter), Placeholder];
      params := params + [genreId.value];
    }
    ghost var afterGenre, genreParams := sql, params;
    if year.Some? {
      sql := sql + [Sql(if genreId.Some? then And else Where)];
      sql := sql + [Sql(YearFilter), Placeholder];
      params := params + [year.value];
      assert sql == afterGenre + [Sql(if genreId.Some? then And else Where), Sql(YearFilter), Placeholder];
    }
    assert params == genreParams + (if year.Some? then [year.value] else []);
  }

  /** `String.join(sep, parts)` on statements. */
  function JoinWith(parts: seq<Statement>, sep: Statement): Statement {
    if parts == [] then []
    else if |parts| == 1 then parts[0]
    else parts[0] + sep + JoinWith(parts[1..], sep)
  }

  const TitleCondition: Statement := [Sql(TitleLike), Placeholder, Sql(LikeEnd)]
  const DirectorCondition: Statement := [Sql(DirectorLike), Placeholder, Sql(LikeEnd)]

  /** The WHERE conditions of `searchFilms(query, by)`, given whether `by`
      contains "title" and whether it contains "director": title first. */
  function SearchConditions(title: bool, director: bool): seq<Statement> {
    (if title then [TitleCondition] else []) + (if director then [DirectorCondition] else [])
  }

  /** The statement of `searchFilms(query, by)`. */
  function SearchSql(title: bool, director: bool): Statement {
    [Sql(SelectDistinct)]
    + (if director then [Sql(DirectorJoins)] else [])
    + [Sql(WhereKeyword)]
    + JoinWith(SearchConditions(title, director), [Sql(Or)]) + [Sql(OrderByRate)]
  }

  /** The four statements `searchFilms` can build. */
  lemma SearchSqlShape(title: bool, director: bool)
    ensures title && director ==>
      SearchSql(title, director) == [Sql(SelectDistinct), Sql(DirectorJoins), Sql(WhereKeyword),
        Sql(TitleLike), Placeholder, Sql(LikeEnd), Sql(Or), Sql(DirectorLike), Placeholder, Sql(LikeEnd),
        Sql(OrderByRate)]
    ensures title && !director ==>
      SearchSql(title, director) == [Sql(SelectDistinct), Sql(WhereKeyword),
        Sql(TitleLike), Placeholder, Sql(LikeEnd), Sql(OrderByRate)]
    ensures !title && director ==>
      SearchSql(title, director) == [Sql(SelectDistinct), Sql(DirectorJoins), Sql(WhereKeyword),
        Sql(DirectorLike), Placeholder, Sql(LikeEnd), Sql(OrderByRate)]
    ensures !title && !director ==>
      SearchSql(title, director) == [Sql(SelectDistinct), Sql(WhereKeyword), Sql(OrderByRate)]
  {
    if title && director {
      assert JoinWith([TitleCondition, DirectorCondition], [Sql(Or)]) == TitleCondition + [Sql(Or)] + DirectorCondition;
    }
  }

  lemma JoinedConditionsPlaceholders(title: bool, director: bool)
    ensures Placeholders(JoinWith(SearchConditions(title, director), [Sql(Or)])) == |SearchConditions(title, director)|
  {
    var conditions := SearchConditions(title, director);
    if title && director {
      assert conditions == [TitleCondition, DirectorCondition];
      assert JoinWith(conditions[1..], [Sql(Or)]) == DirectorCondition;
    }
  }

  /** One placeholder per condition, and so one per field named. */
  lemma SearchPlaceholdersMatchConditions(title: bool, director: bool)
    ensures Placeholders(SearchSql(title, director)) == |SearchConditions(title, director)|
    ensures |SearchConditions(title, director)| == (if title then 1 else 0) + (if director then 1 else 0)
  {
    JoinedConditionsPlaceholders(title, director);
    var head := [Sql(SelectDistinct)] + (if director then [Sql(DirectorJoins)] else []) + [Sql(WhereKeyword)];
    var joined := JoinWith(SearchConditions(title, director), [Sql(Or)]);
    assert SearchSql(title, director) == head + joined + [Sql(OrderByRate)];
    assert multiset(head)[Placeholder] == 0;
  }

  /** The director tables are joined exactly when the director condition is
      present, and the title condition comes first. */
  lemma SearchJoinsFollowConditions(title: bool, director: bool)
    ensures (Sql(DirectorJoins) in SearchSql(title, director)) <==> director
    ensures (Sql(DirectorLike) in SearchSql(title, director)) <==> director
    ensures (Sql(TitleLike) in SearchSql(title, director)) <==> title
    ensures title ==> SearchConditions(title, director)[0] == TitleCondition
  {
    SearchSqlShape(title, director);
    var st := SearchSql(title, director);
    if title && director {
      assert st[1] == Sql(DirectorJoins) && st[3] == Sql(TitleLike) && st[7] == Sql(DirectorLike);
    } else if title {
      assert st[2] == Sql(TitleLike);
    } else if director {
      assert st[1] == Sql(DirectorJoins) && st[3] == Sql(DirectorLike);
    }
  }

  /** A `by` that names neither field leaves an empty WHERE clause: the
      WHERE keyword is followed directly by ORDER BY, with nothing to bind. */
  lemma NoConditionLeavesEmptyWhere()
    ensures SearchConditions(false, false) == []
    ensures Sql(WhereKeyword) in SearchSql(false, false)
    ensures forall k :: 0 <= k < |SearchSql(false, false)| - 1 && SearchSql(false, false)[k] == Sql(WhereKeyword) ==>
      SearchSql(false, false)[k + 1] == Sql(OrderByRate)
    ensures Placeholders(SearchSql(false, false)) == 0
  {
    SearchSqlShape(false, false);
    var st := SearchSql(false, false);
    assert st[1] == Sql(WhereKeyword);
    assert multiset(st)[Placeholder] == 0;
  }

  /** The statement setter of `searchFilms`: `setString` at `paramIndex`,
      which starts at 1 and is advanced after the title binding. The calls,
      in order, bind the query once per condition, at positions 1, 2, ... */
  method BindSearchQuery(query: string, title: bool, director: bool) returns (binds: seq<(int, string)>)
    ensures |binds| == |SearchConditions(title, director)|
    ensures forall k :: 0 <= k < |binds| ==> binds[k] == (k + 1, query)
  {
    binds := [];
    var paramIndex := 1;
    if title {
      binds := binds + [(paramIndex, query)];
      paramIndex := paramIndex + 1;
    }
    if director {
      binds := binds + [(paramIndex, query)];
    }
  }

  /** `searchFilms` grows the statement with `+=`, joining the director
      tables when `by` names "director", and collects the conditions in a
      list that it joins with " OR ". */
  method BuildSearchStatement(title: bool, director: bool) returns (sql: Statement)
    ensures sql == SearchSql(title, director)
  {
    sql := [Sql(SelectDistinct)];
    if director {
      sql := sql + [Sql(DirectorJoins)];
    }
    sql := sql + [Sql(WhereKeyword)];
    var conditions: seq<Statement> := [];
    if title {
      conditions := conditions + [TitleCondition];
    }
    if director {
      conditions := conditions + [DirectorCondition];
    }
    sql := sql + JoinWith(conditions, [Sql(Or)]) + [Sql(OrderByRate)];
  }

  /** `searchFilms(query, by)`: the statement and its bindings, one per
      placeholder, each the query, in placeholder order. */
  method BuildSearchQuery(query: string, fields: string) returns (sql: Statement, binds: seq<(int, string)>)
    ensures sql == SearchSql(Contains(fields, "title"), Contains(fields, "director"))
    ensures |binds| == Placeholders(sql)
    ensures forall k :: 0 <= k < |binds| ==> binds[k] == (k + 1, query)
  {
    var title := Contains(fields, "title");
    var director := Contains(fields, "director");
    sql := BuildSearchStatement(title, director);
    binds := BindSearchQuery(query, title, director);
    SearchPlaceholdersMatchConditions(title, director);
  }

  /** Whether a film row passes the genre and year filters. */
  predicate PassesFilters(film: FilmRow, genreId: Option<int>, year: Option<int>) {
    (genreId.None? || genreId.value in film.genres)
    && (year.None? || (film.releaseDate.Some? && film.releaseDate.value.year == year.value))
  }

  /** The genre links a rewrite leaves: the given ids, or none for null. */
  function LinkedGenres(genres: Option<set<Id>>): set<Id> {
    if genres.Some? then genres.value else {}
  }

  /** The director links a rewrite leaves: the given directors, or none for
      null. */
  function LinkedDirectors(directors: Option<seq<Director>>): seq<Director> {
    if directors.Some? then directors.value else []
  }

  /** After a rewrite a film passes a genre filter only for a genre the
      rewrite named: a null `genres` leaves it outside every one. */
  lemma RewrittenGenresDecideGenreFilter(film: FilmRow, genres: Option<set<Id>>, genreId: int, year: Option<int>)
    requires film.genres == LinkedGenres(genres)
    ensures PassesFilters(film, Some(genreId), year) ==> genres.Some? && genreId in genres.value
    ensures PassesFilters(film, Some(genreId), None) <==> genres.Some? && genreId in genres.value
  {
  }

  class FilmDbStorage {
    var films: map<Id, FilmRow>

    /** Every row is filed under its own key and has a release date, since
      writing a film goes through `Date.valueOf`, which refuses null. */
    ghost predicate Valid()
      reads this
    {
      forall id :: id in films ==> films[id].id == id && films[id].releaseDate.Some?
    }

    constructor(rows: map<Id, FilmRow>)
      requires forall id :: id in rows ==> rows[id].id == id && rows[id].releaseDate.Some?
      ensures films == rows && Valid()
    {
      films := rows;
    }

    /** `getFilmById(id)`: the row, or EntityNotFoundException when the
      query finds none. */
    function GetFilmById(id: Id): (r: Result<FilmRow>)
      reads this
      ensures r.Ok? <==> id in films
      ensures r.Ok? ==> r.value == films[id] && r.value.id == id
      ensures r.Err? ==> r.error == NotFound(FilmEntity)
      requires Valid()
    {
      if id in films then Ok(films[id]) else Err(NotFound(FilmEntity))
    }

    /** `deleteById(id)`: deletes the row; zero deleted rows is
      EntityNotFoundException. */
    method DeleteById(id: Id) returns (o: Outcome)
      requires Valid()
      modifies this
      ensures Valid()
      ensures o.Done? <==> id in old(films)
      ensures o.Fail? ==> o.error == NotFound(FilmEntity)
      ensures films == old(films) - {id}
    {
      if id in films {
        films := films - {id};
        o := Done;
      } else {
        o := Fail(NotFound(FilmEntity));
      }
    }

    /** `updateFilm(film)`: a film without an id is IllegalArgumentException;
      otherwise the UPDATE overwrites name and release date of the row with
      that id, if there is one, and returns the film. A null release date
      makes `Date.valueOf` throw. A null name is taken to be refused, on the
      assumption that `film.name` is declared NOT NULL. */
    method UpdateFilm(film: Film) returns (r: Result<Film>)
      requires Valid()
      modifies this
      ensures Valid()
      ensures film.id.None? ==> r == Err(IllegalArgument)
      ensures film.id.Some? && (film.releaseDate.None? || film.name.None?) ==> r == Err(NullValue)
      ensures r.Err? ==> films == old(films)
      ensures r.Ok? <==> film.id.Some? && film.releaseDate.Some? && film.name.Some?
      ensures r.Ok? ==> r.value == film && films == (if film.id.value in old(films) then
        old(films)[film.id.value := old(films)[film.id.value].(name := film.name.value, releaseDate := film.releaseDate)]
        else old(films))
    {
      if film.id.None? {
        return Err(IllegalArgument);
      }
      if film.releaseDate.None? || film.name.None? {
        return Err(NullValue);
      }
      var id := film.id.value;
      if id in films {
        films := films[id := films[id].(name := film.name.value, releaseDate := film.releaseDate)];
      }
      r := Ok(film);
    }

    /** `genreDao.updateGenres(filmId, genres)` followed by
      `directorStorage.updateDirectorsForFilm(filmId, directors)`: each
      deletes the film's `film_genre` (or `film_director`) rows and inserts
      one per element of the given collection, none when it is null. The
      row carries those links, so the rewrite replaces its two link columns
      and nothing else. */
    method RewriteLinks(filmId: Id, genres: Option<set<Id>>, directors: Option<seq<Director>>)
      requires Valid()
      modifies this
      ensures Valid()
      ensures films.Keys == old(films).Keys
      ensures forall id :: id in films && id != filmId ==> films[id] == old(films)[id]
      ensures filmId in films ==> films[filmId] == old(films)[filmId].(
        genres := LinkedGenres(genres), directors := LinkedDirectors(directors))
    {
      if filmId in films {
        films := films[filmId := films[filmId].(genres := LinkedGenres(genres), directors := LinkedDirectors(directors))];
      }
    }

    /** The rows that pass the genre and year filters. */
    function Filtered(genreId: Option<int>, year: Option<int>): set<FilmRow>
      reads this
    {
      set x | x in films.Values && PassesFilters(x, genreId, year)
    }

    /** `getFilteredFilms(genreId, year)`: the rows the built statement
      selects, each once, in no particular order. */
    method GetFilteredFilms(genreId: Option<int>, year: Option<int>) returns (r: seq<FilmRow>)
      requires Valid()
      ensures forall x :: x in r <==> x in films.Values && PassesFilters(x, genreId, year)
      ensures |r| == |Filtered(genreId, year)|
      ensures Distinct(r)
    {
      var sql, params := BuildFilteredQuery(genreId, year);
      r := SetToSeq(Filtered(genreId, year));
    }

    /** The rows whose id is in `ids`, each once, in no particular order:
      the lookup by a set of ids that `FilmDbService.getCommonFilms` calls,
      which the storage itself does not declare. */
    method GetFilmsByIds(ids: set<Id>) returns (r: seq<FilmRow>)
      requires Valid()
      ensures forall x :: x in r <==> x in films.Values && x.id in ids
      ensures Distinct(r)
    {
      r := SetToSeq(set x | x in films.Values && x.id in ids);
    }
  }
}
