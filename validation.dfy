/** The field checks of `ValidationUtils`. */
module Validation {
  import opened Common
  import opened Dates
  import opened Text

  predicate IsLetter(c: char) {
    'a' <= c <= 'z' || 'A' <= c <= 'Z'
  }

  predicate IsDigit(c: char) {
    '0' <= c <= '9'
  }

  /** `[a-zA-Z0-9._%+-]` */
  predicate IsLocalChar(c: char) {
    IsLetter(c) || IsDigit(c) || c == '.' || c == '_' || c == '%' || c == '+' || c == '-'
  }

  /** `[a-zA-Z0-9.-]` */
  predicate IsDomainChar(c: char) {
    IsLetter(c) || IsDigit(c) || c == '.' || c == '-'
  }

  predicate AllOf(s: string, p: char -> bool) {
    forall i :: 0 <= i < |s| ==> p(s[i])
  }

  /** `s` reads local `@` domain `.` tld with the `@` at `at` and the `.`
      before the top-level domain at `dot`. */
  predicate EmailSplitAt(s: string, at: int, dot: int)
    requires 0 <= at < dot < |s|
  {
    && at >= 1 && AllOf(s[..at], IsLocalChar)
    && s[at] == '@'
    && at + 1 < dot && AllOf(s[at + 1..dot], IsDomainChar)
    && s[dot] == '.'
    && |s| - (dot + 1) >= 2 && AllOf(s[dot + 1..], IsLetter)
  }

  /** `s.matches("[a-zA-Z0-9._%+-]+@[a-zA-Z0-9.-]+\\.[a-zA-Z]{2,}")`: some
      choice of the `@` and of the last dot splits the whole of `s` as the
      pattern demands. */
  predicate MatchesEmailPattern(s: string) {
    exists at, dot :: 0 <= at < dot < |s| && EmailSplitAt(s, at, dot)
  }

  /** The `@` is the first one and the dot the last one: no class of the
      pattern admits another `@`, and the top-level domain admits no dot. */
  lemma EmailSplitIsForced(s: string, at: int, dot: int)
    requires 0 <= at < dot < |s| && EmailSplitAt(s, at, dot)
    ensures IndexOf(s, '@') == at && LastIndexOf(s, '.') == dot
  {
    assert AllOf(s[..at], IsLocalChar);
    IndexOfAt(s, '@', at);
    assert AllOf(s[dot + 1..], IsLetter);
    LastIndexOfAt(s, '.', dot);
  }

  /** `ValidationUtils.isValidEmail`: non-null, not empty after trim, and
      matching the pattern, decided by locating the first `@` and the last
      dot. */
  predicate IsValidEmail(email: Option<string>)
    ensures IsValidEmail(email) <==> email.Some? && MatchesEmailPattern(email.value)
  {
    if email.None? then false
    else
      var s := email.value;
      var at := IndexOf(s, '@');
      var dot := LastIndexOf(s, '.');
      var valid := Trim(s) != [] && 0 <= at < dot && EmailSplitAt(s, at, dot);
      assert MatchesEmailPattern(s) ==> valid by {
        if MatchesEmailPattern(s) {
          var a, d :| 0 <= a < d < |s| && EmailSplitAt(s, a, d);
          EmailSplitIsForced(s, a, d);
          TrimEmptyIff(s);
          assert !IsTrimmed(s[a]);
        }
      }
      valid
  }

  /** `isValidLogin`: non-null and not empty after trim, that is, holding a
      character above U+0020. */
  predicate IsValidLogin(login: Option<string>)
    ensures IsValidLogin(login)
      <==> login.Some? && exists i :: 0 <= i < |login.value| && !IsTrimmed(login.value[i])
  {
    TrimEmptyIffSome(login);
    login.Some? && Trim(login.value) != []
  }

  /** `isValidName`: the same check on a film name. */
  predicate IsValidName(name: Option<string>)
    ensures IsValidName(name)
      <==> name.Some? && exists i :: 0 <= i < |name.value| && !IsTrimmed(name.value[i])
  {
    TrimEmptyIffSome(name);
    name.Some? && Trim(name.value) != []
  }

  lemma TrimEmptyIffSome(s: Option<string>)
    ensures s.Some? ==> (Trim(s.value) != [] <==> exists i :: 0 <= i < |s.value| && !IsTrimmed(s.value[i]))
  {
    if s.Some? {
      TrimEmptyIff(s.value);
    }
  }

  /** `isValidBirthday`, with the current date passed in. */
  predicate IsValidBirthday(birthday: Option<Date>, today: Date)
    ensures IsValidBirthday(birthday, today)
      <==> birthday.Some? && (birthday.value == today || IsBefore(birthday.value, today))
  {
    birthday.Some? && !IsAfter(birthday.value, today)
  }

  /** `isValidUsername` accepts every name: an empty one is replaced by the login. */
  predicate IsValidUsername(name: Option<string>)
    ensures IsValidUsername(name)
  {
    true
  }

  /** `isValidDuration`. */
  predicate IsValidDuration(duration: int)
    ensures IsValidDuration(duration) <==> duration >= 1
  {
    duration > 0
  }

  /** `isValidReleaseDate`: non-null and not before 28 December 1895. */
  predicate IsValidReleaseDate(date: Option<Date>)
    ensures IsValidReleaseDate(date)
      <==> date.Some? && (date.value == FirstFilmDate || IsBefore(FirstFilmDate, date.value))
  {
    date.Some? && !IsBefore(date.value, FirstFilmDate)
  }

  /** The first film day itself is accepted, the day before it is not. */
  lemma ReleaseDateBoundary()
    ensures IsValidReleaseDate(Some(Date(1895, 12, 28)))
    ensures !IsValidReleaseDate(Some(Date(1895, 12, 27)))
    ensures !IsValidReleaseDate(None)
  {
  }

  /** A date after a valid release date is valid too. */
  lemma ReleaseDateUpwardClosed(d: Date, later: Date)
    requires IsValidReleaseDate(Some(d)) && !IsBefore(later, d)
    ensures IsValidReleaseDate(Some(later))
  {
    IsBeforeStrictTotalOrder(later, d, FirstFilmDate);
    IsBeforeStrictTotalOrder(FirstFilmDate, d, later);
  }

  lemma EmailAccepted()
    ensures IsValidEmail(Some("mail@mail.ru"))
  {
    assert EmailSplitAt("mail@mail.ru", 4, 9);
  }

  lemma EmailShortTopLevelRejected()
    ensures !IsValidEmail(Some("mail@mail.r"))
  {
  }

  lemma EmailEmptyLocalRejected()
    ensures !IsValidEmail(Some("@mail.ru"))
  {
  }
}
