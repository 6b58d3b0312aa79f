/** `java.time.LocalDate` as a (year, month, day) triple in calendar order. */
module Dates {

  datatype Date = Date(year: int, month: int, day: int)

  /** `a.isBefore(b)`: lexicographic order on (year, month, day). */
  predicate IsBefore(a: Date, b: Date) {
    a.year < b.year
    || (a.year == b.year && (a.month < b.month || (a.month == b.month && a.day < b.day)))
  }

  /** `a.isAfter(b)`. */
  predicate IsAfter(a: Date, b: Date) {
    IsBefore(b, a)
  }

  /** The first film screening: no film may be released before it. */
  const FirstFilmDate := Date(1895, 12, 28)

  /** IsBefore is a strict total order on dates. */
  lemma IsBeforeStrictTotalOrder(a: Date, b: Date, c: Date)
    ensures !IsBefore(a, a)
    ensures IsBefore(a, b) ==> !IsBefore(b, a)
    ensures IsBefore(a, b) && IsBefore(b, c) ==> IsBefore(a, c)
    ensures a == b || IsBefore(a, b) || IsBefore(b, a)
  {
  }
}
