/** `FilmSearchMatcher`: whether a film answers a search in one of the
    requested fields. */
module FilmSearchMatcher {
  import opened Text
  import opened Model

  /** Some director's lower-cased name contains `query`: the `anyMatch` over
      the film's directors. */
  function AnyDirectorMatches(directors: seq<Director>, query: string): (r: bool)
    ensures r <==> exists d :: d in directors && Contains(ToLower(d.name), query)
  {
    if directors == [] then false
    else Contains(ToLower(directors[0].name), query) || AnyDirectorMatches(directors[1..], query)
  }

  /** One requested field matches: `"title"` compares the lower-cased film
      name, `"director"` the lower-cased director names; any other token,
      blanks included, matches nothing. */
  predicate ParamMatches(film: FilmRow, query: string, param: string) {
    || (param == "title" && Contains(ToLower(film.name), query))
    || (param == "director" && AnyDirectorMatches(film.directors, query))
  }

  /** `matches(film, query, searchParams)`: the loop returns true at the first
      parameter that matches, false when none does. */
  function Matches(film: FilmRow, query: string, params: seq<string>): (r: bool)
    ensures r <==> exists p :: p in params && ParamMatches(film, query, p)
  {
    if params == [] then false
    else ParamMatches(film, query, params[0]) || Matches(film, query, params[1..])
  }

  /** The answer depends only on which parameters are given, not on their
      order or how often each is repeated. */
  lemma MatchesIgnoresOrder(film: FilmRow, query: string, p1: seq<string>, p2: seq<string>)
    requires forall p :: p in p1 <==> p in p2
    ensures Matches(film, query, p1) == Matches(film, query, p2)
  {
  }

  /** In particular a permutation of the parameters gives the same answer. */
  lemma MatchesPermutation(film: FilmRow, query: string, p1: seq<string>, p2: seq<string>)
    requires multiset(p1) == multiset(p2)
    ensures Matches(film, query, p1) == Matches(film, query, p2)
  {
    forall p ensures p in p1 <==> p in p2 {
      assert p in p1 <==> p in multiset(p1);
      assert p in p2 <==> p in multiset(p2);
    }
    MatchesIgnoresOrder(film, query, p1, p2);
  }

  /** A token that is not exactly a field name, such as one the parser
      accepted with surrounding blanks, adds nothing to the search. */
  lemma OtherTokenIgnored(film: FilmRow, query: string, params: seq<string>, token: string)
    requires token != "title" && token != "director"
    ensures Matches(film, query, params + [token]) == Matches(film, query, params)
  {
    assert forall p :: p in params + [token] <==> p in params || p == token;
  }

  /** The query is compared as given: one holding a capital letter never
      matches, which is why the caller lower-cases it first. */
  lemma CapitalInQueryNeverMatches(film: FilmRow, query: string, params: seq<string>, j: int)
    requires 0 <= j < |query| && 'A' <= query[j] <= 'Z'
    ensures !Matches(film, query, params)
  {
    LowerNeverContainsUpper(film.name, query, j);
    forall d | d in film.directors ensures !Contains(ToLower(d.name), query) {
      LowerNeverContainsUpper(d.name, query, j);
    }
  }
}
