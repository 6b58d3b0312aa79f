/** `FilmPopularityComparator`: orders films by a like-count map captured
    when the comparator is built. */
module FilmPopularity {
  import opened Common
  import opened Model
  import opened Sorting

  /** The comparator and the map it was constructed with; being a value, the
      map cannot change after construction. */
  datatype FilmPopularityComparator = FilmPopularityComparator(likesCountMap: map<Id, int>)

  /** `likesCountMap.getOrDefault(film.getId(), 0)`. */
  function Likes(c: FilmPopularityComparator, film: FilmRow): int {
    if film.id in c.likesCountMap then c.likesCountMap[film.id] else 0
  }

  /** `Integer.compare(x, y)`: -1, 0 or 1 as `x` is below, equal to or above `y`. */
  function IntegerCompare(x: int, y: int): (r: int)
    ensures r == -1 || r == 0 || r == 1
    ensures r < 0 <==> x < y
    ensures r == 0 <==> x == y
  {
    if x < y then -1 else if x == y then 0 else 1
  }

  /** `compare(film1, film2)`: the film with more likes comes first. */
  function Compare(c: FilmPopularityComparator, film1: FilmRow, film2: FilmRow): (r: int)
    ensures r < 0 <==> Likes(c, film1) > Likes(c, film2)
    ensures r == 0 <==> Likes(c, film1) == Likes(c, film2)
    ensures r > 0 <==> Likes(c, film1) < Likes(c, film2)
  {
    IntegerCompare(Likes(c, film2), Likes(c, film1))
  }

  /** Swapping the films negates the result. */
  lemma CompareAntisymmetric(c: FilmPopularityComparator, a: FilmRow, b: FilmRow)
    ensures Compare(c, a, b) == -Compare(c, b, a)
  {
  }

  /** "Not after" is transitive. */
  lemma CompareTransitive(c: FilmPopularityComparator, a: FilmRow, b: FilmRow, d: FilmRow)
    requires Compare(c, a, b) <= 0 && Compare(c, b, d) <= 0
    ensures Compare(c, a, d) <= 0
  {
  }

  /** Films the map does not know tie with each other, and come after every
      film with a positive count. */
  lemma UnknownFilmsCountZero(c: FilmPopularityComparator, a: FilmRow, b: FilmRow)
    requires a.id !in c.likesCountMap
    ensures b.id !in c.likesCountMap ==> Compare(c, a, b) == 0
    ensures b.id in c.likesCountMap && c.likesCountMap[b.id] > 0 ==> Compare(c, b, a) < 0
  {
  }

  /** The "may come first" relation a sort by this comparator uses. */
  function NotAfter(c: FilmPopularityComparator): (le: (FilmRow, FilmRow) -> bool) {
    (a: FilmRow, b: FilmRow) => Compare(c, a, b) <= 0
  }

  lemma NotAfterIsTotalPreorder(c: FilmPopularityComparator)
    ensures TotalPreorder(NotAfter(c))
  {
  }

  /** A list sorted by the comparator has non-increasing like counts. */
  lemma SortedByPopularity(c: FilmPopularityComparator, films: seq<FilmRow>)
    requires SortedBy(NotAfter(c), films)
    ensures forall i, j :: 0 <= i < j < |films| ==> Likes(c, films[i]) >= Likes(c, films[j])
  {
  }
}
