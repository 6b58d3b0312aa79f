# Filmorate core in Dafny

Filmorate is a small film-rating service. Users register, befriend each
other and like films. The service ranks films by likes, searches them by
title or director, keeps reviews that other users rate as useful or not,
and logs a feed of events. This project models the core of that service
and proves properties of the model. The core is:

- the two generations of in-memory user and film stores;
- the services layered over them (`UserService`, `FilmService`);
- the database-backed parts: the `likes`, `friends`, `reviews` and `events`
  tables and the film table's query builders;
- the database services (`UserDbService`, `FilmDbService`, `ReviewService`);
- the helpers they share: field validators, the search-parameter parser,
  the search matcher, the popularity comparator and the two review mappers.

Each source file becomes one module in one `.dfy` file:

- Code that updates state in place is a `class` whose fields are the
  stored maps, sets and sequences. Its methods carry `modifies` clauses and
  state the whole new state.
- Code that only computes is a function or a lemma.
- A database table is an abstract relation:
  - `likes` is a set of (user, film) pairs;
  - `friends` maps directed edges to their status flag;
  - `review_likes` maps (review, user) to like or dislike;
  - `events` is an append-only sequence.
- An exception is an `Err`/`Fail` value whose `Error` names the exception
  and, for "not found", the entity. Contracts can therefore state which
  check fires first.
- A Java `null` is `None` in an `Option`.
- `Stream.sorted` is one stable insertion sort (`Sorting.Sort`) driven by a
  total preorder. It is proved to give a sorted permutation, and every
  ranking reuses it.
- Iteration over a `HashMap` or `HashSet` is `Collections.SetToSeq`, which
  promises each element once in an unspecified order.
- The clock is a parameter (`today`, `now`).

Wiring follows the Spring configuration:

- The database user and film storages are the primary beans, so
  `ReviewService`, `FilmDbService` and `UserDbService` are modelled over
  them.
- The popularity comparator is built once at start-up from the like counts
  of that moment. It is a constant of `FilmDbService`.

Where the code and its own documentation disagree, the model follows the
code:

- A `by` list made only of commas (`","`) splits into no fields. The parser
  accepts it, and the search then matches nothing
  (`SearchParameterParser.LoneCommaGivesNoFields`).
- `ReviewDao.update` writes the `useful` column from the request as well as
  the content and the type.
- `FilmService.getTopRatedFilms` computes `max(count, 10)` and never uses it.
- `FriendDao.statusFriend` always reports `true`.
- The like, dislike and removal operations of `ReviewService` check the
  user but not the review.

## Model

| member | source | states |
|---|---|---|
| MemoryUserStorage.InMemoryUserStorage.FindUserById | src/main/java/ru/yandex/practicum/filmorate/storage/InMemoryUserStorage.java:21-23 | present exactly for a stored id, with the stored user |
| MemoryUserStorage.InMemoryUserStorage.AddUser | src/main/java/ru/yandex/practicum/filmorate/storage/InMemoryUserStorage.java:33-37 | the user is stored under a fresh id above every existing id (1 for an empty store); keys stay consistent |
| Collections.NextId | src/main/java/ru/yandex/practicum/filmorate/storage/InMemoryUserStorage.java:94-101 | one more than the largest key, or 1 when there is none; above every key |
| MemoryUserStorage.InMemoryUserStorage.UpdateUser | src/main/java/ru/yandex/practicum/filmorate/storage/InMemoryUserStorage.java:41-43 | replaces the stored user iff its id is stored; otherwise reports absence and changes nothing |
| MemoryUserStorage.InMemoryUserStorage.AddFriend | src/main/java/ru/yandex/practicum/filmorate/storage/InMemoryUserStorage.java:47-53 | the new map is `WithFriend` of the old one: only `userId`'s set gains `friendId`, and only when both exist |
| MemoryUserStorage.AddFriendIdempotent | src/main/java/ru/yandex/practicum/filmorate/storage/InMemoryUserStorage.java:47-53 | adding the same friend twice equals adding it once |
| MemoryUserStorage.AddFriendDirectional | src/main/java/ru/yandex/practicum/filmorate/storage/InMemoryUserStorage.java:47-53 | no other user changes; `friendId` is in the set afterwards iff it exists or was already there |
| MemoryUserStorage.InMemoryUserStorage.RemoveFriend | src/main/java/ru/yandex/practicum/filmorate/storage/InMemoryUserStorage.java:57-62 | the new map is `WithoutFriend` of the old one |
| MemoryUserStorage.RemoveFriendEffect | src/main/java/ru/yandex/practicum/filmorate/storage/InMemoryUserStorage.java:57-62 | `friendId` leaves the set; no other user changes; nothing changes when the user is missing or the friend absent |
| MemoryUserStorage.RemoveUndoesAdd | src/main/java/ru/yandex/practicum/filmorate/storage/InMemoryUserStorage.java:47-62 | removing a friend undoes adding one that was not there |
| MemoryUserStorage.InMemoryUserStorage.GetFriends | src/main/java/ru/yandex/practicum/filmorate/storage/InMemoryUserStorage.java:66-75 | empty for an unknown user |
| MemoryUserStorage.InMemoryUserStorage.FriendsAreStoredFriends | src/main/java/ru/yandex/practicum/filmorate/storage/InMemoryUserStorage.java:66-75 | the friends returned are exactly the stored users whose ids are in the user's friend set |
| MemoryUserStorage.InMemoryUserStorage.GetCommonFriends | src/main/java/ru/yandex/practicum/filmorate/storage/InMemoryUserStorage.java:79-91 | empty unless both users are stored |
| MemoryUserStorage.InMemoryUserStorage.CommonFriendsSymmetric | src/main/java/ru/yandex/practicum/filmorate/storage/InMemoryUserStorage.java:79-91 | common friends do not depend on argument order |
| MemoryUserStorage.InMemoryUserStorage.CommonFriendsAreSharedFriends | src/main/java/ru/yandex/practicum/filmorate/storage/InMemoryUserStorage.java:79-91 | common friends are the intersection of the two friend lists |
| MemoryFilmStorage.InMemoryFilmStorage.FindFilmById | src/main/java/ru/yandex/practicum/filmorate/storage/InMemoryFilmStorage.java:21-23 | present exactly for a stored id |
| MemoryFilmStorage.InMemoryFilmStorage.AddFilm | src/main/java/ru/yandex/practicum/filmorate/storage/InMemoryFilmStorage.java:33-37 | stored under a fresh id above every existing id (1 for an empty store) |
| MemoryFilmStorage.InMemoryFilmStorage.UpdateFilm | src/main/java/ru/yandex/practicum/filmorate/storage/InMemoryFilmStorage.java:41-43 | replaces the film iff its id is stored; otherwise nothing changes |
| MemoryFilmStorage.InMemoryFilmStorage.AddLike | src/main/java/ru/yandex/practicum/filmorate/storage/InMemoryFilmStorage.java:47-52 | the new map is `WithLike` of the old one |
| MemoryFilmStorage.AddLikeEffect | src/main/java/ru/yandex/practicum/filmorate/storage/InMemoryFilmStorage.java:47-52 | liking is idempotent, keeps the keys, adds the user to the liked film and touches no other film |
| MemoryFilmStorage.InMemoryFilmStorage.RemoveLike | src/main/java/ru/yandex/practicum/filmorate/storage/InMemoryFilmStorage.java:56-61 | the new map is `WithoutLike` of the old one |
| MemoryFilmStorage.RemoveLikeEffect | src/main/java/ru/yandex/practicum/filmorate/storage/InMemoryFilmStorage.java:56-61 | the user leaves that film's likes, other films are untouched, and nothing changes for a missing film or like |
| MemoryFilmStorage.InMemoryFilmStorage.GetTopFilms | src/main/java/ru/yandex/practicum/filmorate/storage/InMemoryFilmStorage.java:65-70 | IllegalArgument iff the limit is negative; else `min(limit, n)` distinct stored films, most liked first, none left out liked more than one kept |
| CountingUserStorage.InMemoryUserStorage.AddUser | src/main/java/ru/yandex/practicum/filmorate/storage/user/InMemoryUserStorage.java:38-48 | a registered id is a ValidationException with nothing changed; otherwise stored under the counter, which advances by one |
| CountingUserStorage.RegistrationOrder | src/main/java/ru/yandex/practicum/filmorate/storage/user/InMemoryUserStorage.java:38-48 | two successful registrations get consecutive ids |
| CountingUserStorage.InMemoryUserStorage.UpdateUser | src/main/java/ru/yandex/practicum/filmorate/storage/user/InMemoryUserStorage.java:57-67 | replaces a registered user; an unknown id is NotFound(user) with nothing changed |
| CountingUserStorage.InMemoryUserStorage.GetUserById | src/main/java/ru/yandex/practicum/filmorate/storage/user/InMemoryUserStorage.java:86-94 | the user iff registered, else NotFound(user) |
| CountingUserStorage.InMemoryUserStorage.DeleteById | src/main/java/ru/yandex/practicum/filmorate/storage/user/InMemoryUserStorage.java:104-107 | always UnsupportedOperation |
| CountingFilmStorage.InMemoryFilmStorage.AddFilms | src/main/java/ru/yandex/practicum/filmorate/storage/films/InMemoryFilmStorage.java:34-42 | a null film is IllegalArgument with nothing changed; otherwise stored under the counter, which advances |
| CountingFilmStorage.InMemoryFilmStorage.UpdateFilms | src/main/java/ru/yandex/practicum/filmorate/storage/films/InMemoryFilmStorage.java:47-57 | replaces a stored film; an unknown id is NotFound(film) with nothing changed |
| CountingFilmStorage.InMemoryFilmStorage.GetFilm | src/main/java/ru/yandex/practicum/filmorate/storage/films/InMemoryFilmStorage.java:62-65 | every stored film exactly once |
| CountingFilmStorage.InMemoryFilmStorage.GetFilmById | src/main/java/ru/yandex/practicum/filmorate/storage/films/InMemoryFilmStorage.java:70-78 | the film iff stored, else NotFound(film) |
| UserService.WithDefaultName | src/main/java/ru/yandex/practicum/filmorate/service/UserService.java:37-39 | only the name changes; a name with a non-blank character is kept, a null or blank one becomes the login |
| UserService.DefaultNameIdempotent | src/main/java/ru/yandex/practicum/filmorate/service/UserService.java:37-39 | defaulting twice equals defaulting once |
| UserService.UserService.GetUserById | src/main/java/ru/yandex/practicum/filmorate/service/UserService.java:27-31 | the stored user, or NotFound(user) iff it is absent |
| UserService.UserService.AddUser | src/main/java/ru/yandex/practicum/filmorate/service/UserService.java:34-46 | the stored user is the defaulted user under a fresh id |
| UserService.UserService.UpdateUser | src/main/java/ru/yandex/practicum/filmorate/service/UserService.java:49-52 | replaces a stored user; an unknown id is NotFound(user) with nothing changed |
| UserService.UserService.AddFriend | src/main/java/ru/yandex/practicum/filmorate/service/UserService.java:55-62 | NotFound(user) iff either user is missing; otherwise both directions are added |
| UserService.MirroredFriendship | src/main/java/ru/yandex/practicum/filmorate/service/UserService.java:55-62 | after both calls each user is in the other's set and no third user changed |
| UserService.UserService.RemoveFriend | src/main/java/ru/yandex/practicum/filmorate/service/UserService.java:65-81 | NotFound(user) iff either user is missing; otherwise both directions are removed |
| UserService.MirroredRemoval | src/main/java/ru/yandex/practicum/filmorate/service/UserService.java:65-81 | after both removals neither is in the other's set and no third user changed |
| UserService.UserService.GetFriends | src/main/java/ru/yandex/practicum/filmorate/service/UserService.java:84-90 | NotFound(user) iff the user is unknown, else the store's friend set |
| UserService.UserService.GetCommonFriends | src/main/java/ru/yandex/practicum/filmorate/service/UserService.java:93-96 | the store's common friends, with no existence check of its own |
| FilmService.AddFilmCheck | src/main/java/ru/yandex/practicum/filmorate/service/FilmService.java:27-32 | passes iff name and release date are valid; the name is checked first |
| FilmService.DayBeforeFirstFilmRefused | src/main/java/ru/yandex/practicum/filmorate/service/FilmService.java:30-32 | a film dated 27 December 1895 is refused for its date |
| FilmService.FilmService.AddFilm | src/main/java/ru/yandex/practicum/filmorate/service/FilmService.java:25-39 | refused with the check's error and nothing stored, or stored under a fresh id |
| FilmService.FilmService.GetFilmById | src/main/java/ru/yandex/practicum/filmorate/service/FilmService.java:48-51 | the stored film, or NotFound(film) iff absent |
| FilmService.FilmService.UpdateFilm | src/main/java/ru/yandex/practicum/filmorate/service/FilmService.java:54-57 | replaces a stored film; an unknown id is NotFound(film) with nothing changed |
| FilmService.LikeCheck | src/main/java/ru/yandex/practicum/filmorate/service/FilmService.java:60-66 | passes iff film and user exist; the film is checked first |
| FilmService.FilmService.AddLike | src/main/java/ru/yandex/practicum/filmorate/service/FilmService.java:60-69 | the check's outcome; nothing changes on failure, the like is added on success |
| FilmService.FilmService.RemoveLike | src/main/java/ru/yandex/practicum/filmorate/service/FilmService.java:72-81 | the same checks; the like is removed on success |
| FilmService.FilmService.GetTopRatedFilms | src/main/java/ru/yandex/practicum/filmorate/service/FilmService.java:84-88 | the store's top list for `count` itself: IllegalArgument iff negative, else `min(count, n)` distinct stored films, most liked first, none left out liked more than one kept |
| Validation.IsValidEmail | src/main/java/ru/yandex/practicum/filmorate/utils/ValidationUtils.java:32-35 | valid iff non-null and the whole string matches local `@` domain `.` letters{2,} |
| Validation.EmailSplitIsForced | src/main/java/ru/yandex/practicum/filmorate/utils/ValidationUtils.java:32-35 | in a match the `@` is the first one and the dot the last one |
| Validation.EmailAccepted | src/main/java/ru/yandex/practicum/filmorate/utils/ValidationUtils.java:32-35 | `mail@mail.ru` is valid |
| Validation.EmailShortTopLevelRejected | src/main/java/ru/yandex/practicum/filmorate/utils/ValidationUtils.java:32-35 | a one-letter top-level domain is refused |
| Validation.EmailEmptyLocalRejected | src/main/java/ru/yandex/practicum/filmorate/utils/ValidationUtils.java:32-35 | an empty local part is refused |
| Validation.IsValidLogin | src/main/java/ru/yandex/practicum/filmorate/utils/ValidationUtils.java:38-40 | valid iff non-null with a character above U+0020 |
| Validation.IsValidBirthday | src/main/java/ru/yandex/practicum/filmorate/utils/ValidationUtils.java:43-45 | valid iff non-null and not after today |
| Validation.IsValidUsername | src/main/java/ru/yandex/practicum/filmorate/utils/ValidationUtils.java:48-50 | every name is valid |
| Validation.IsValidDuration | src/main/java/ru/yandex/practicum/filmorate/utils/ValidationUtils.java:53-55 | valid iff at least 1 |
| Validation.IsValidReleaseDate | src/main/java/ru/yandex/practicum/filmorate/utils/ValidationUtils.java:58-60 | valid iff non-null and on or after 28 December 1895 |
| Validation.ReleaseDateBoundary | src/main/java/ru/yandex/practicum/filmorate/utils/ValidationUtils.java:58-60 | 28 December 1895 is accepted; the day before and null are not |
| Validation.ReleaseDateUpwardClosed | src/main/java/ru/yandex/practicum/filmorate/utils/ValidationUtils.java:58-60 | any date after a valid one is valid |
| Validation.IsValidName | src/main/java/ru/yandex/practicum/filmorate/utils/ValidationUtils.java:63-65 | valid iff non-null with a character above U+0020 |
| SearchParameterParser.ParseSearchParameters | src/main/java/ru/yandex/practicum/filmorate/utils/SearchParameterParser.java:18-28 | accepted iff every split piece trims to `title` or `director`; the pieces come back untrimmed, else IllegalArgument |
| SearchParameterParser.ParsedPiecesRebuildInput | src/main/java/ru/yandex/practicum/filmorate/utils/SearchParameterParser.java:19-27 | the accepted pieces joined by commas give the input back, up to dropped trailing commas |
| SearchParameterParser.SplitRebuildsInput | src/main/java/ru/yandex/practicum/filmorate/utils/SearchParameterParser.java:19 | the split pieces, padded back with the empty pieces the split dropped, join with commas to the input |
| SearchParameterParser.EmptyRejected | src/main/java/ru/yandex/practicum/filmorate/utils/SearchParameterParser.java:19-25 | `""` is refused |
| SearchParameterParser.LeadingCommaRejected | src/main/java/ru/yandex/practicum/filmorate/utils/SearchParameterParser.java:19-25 | `",title"` is refused |
| SearchParameterParser.TrailingCommaAccepted | src/main/java/ru/yandex/practicum/filmorate/utils/SearchParameterParser.java:19-27 | `"title,"` gives `["title"]` |
| SearchParameterParser.PaddedFieldKeptUntrimmed | src/main/java/ru/yandex/practicum/filmorate/utils/SearchParameterParser.java:19-27 | a field with leading blanks passes and is returned with its blanks |
| SearchParameterParser.DuplicateAccepted | src/main/java/ru/yandex/practicum/filmorate/utils/SearchParameterParser.java:20-27 | a field named twice is accepted and returned twice |
| SearchParameterParser.LoneCommaGivesNoFields | src/main/java/ru/yandex/practicum/filmorate/utils/SearchParameterParser.java:19-27 | `","` is accepted with no fields |
| FilmSearchMatcher.AnyDirectorMatches | src/main/java/ru/yandex/practicum/filmorate/utils/FilmSearchMatcher.java:25-26 | true iff some director's lower-cased name contains the query |
| FilmSearchMatcher.Matches | src/main/java/ru/yandex/practicum/filmorate/utils/FilmSearchMatcher.java:20-31 | true iff some parameter is exactly `title` with a matching name or exactly `director` with a matching director |
| FilmSearchMatcher.MatchesIgnoresOrder | src/main/java/ru/yandex/practicum/filmorate/utils/FilmSearchMatcher.java:21-29 | only the set of parameters matters |
| FilmSearchMatcher.MatchesPermutation | src/main/java/ru/yandex/practicum/filmorate/utils/FilmSearchMatcher.java:21-29 | a permutation of the parameters gives the same answer |
| FilmSearchMatcher.OtherTokenIgnored | src/main/java/ru/yandex/practicum/filmorate/utils/FilmSearchMatcher.java:22-25 | a token other than `title`/`director`, such as a padded one, adds nothing |
| FilmSearchMatcher.CapitalInQueryNeverMatches | src/main/java/ru/yandex/practicum/filmorate/utils/FilmSearchMatcher.java:20-31 | a query holding a capital letter never matches, since only the film side is lower-cased |
| FilmPopularity.IntegerCompare | src/main/java/ru/yandex/practicum/filmorate/utils/FilmPopularityComparator.java:23 | -1, 0 or 1 as the first is below, equal to or above the second |
| FilmPopularity.Compare | src/main/java/ru/yandex/practicum/filmorate/utils/FilmPopularityComparator.java:20-24 | negative iff the first film has more likes, zero iff equal; absent films count 0 |
| FilmPopularity.CompareAntisymmetric | src/main/java/ru/yandex/practicum/filmorate/utils/FilmPopularityComparator.java:20-24 | swapping the films negates the result |
| FilmPopularity.CompareTransitive | src/main/java/ru/yandex/practicum/filmorate/utils/FilmPopularityComparator.java:20-24 | "not after" is transitive |
| FilmPopularity.UnknownFilmsCountZero | src/main/java/ru/yandex/practicum/filmorate/utils/FilmPopularityComparator.java:21-22 | films missing from the map tie, and come after any film with a positive count |
| FilmPopularity.NotAfterIsTotalPreorder | src/main/java/ru/yandex/practicum/filmorate/utils/FilmPopularityComparator.java:20-24 | the comparator induces a total preorder |
| FilmPopularity.SortedByPopularity | src/main/java/ru/yandex/practicum/filmorate/utils/FilmPopularityComparator.java:20-24 | a list sorted by it has non-increasing like counts |
| StorageReviewMapper.RequestRoundTrip | src/main/java/ru/yandex/practicum/filmorate/storage/mapper/ReviewMapper.java:11-29 | request to review and back is the identity |
| StorageReviewMapper.ReviewRoundTrip | src/main/java/ru/yandex/practicum/filmorate/storage/mapper/ReviewMapper.java:11-29 | review to request and back is the identity iff the review has useful 0 and no reactions |
| ReviewMapper.RequestRoundTrip | src/main/java/ru/yandex/practicum/filmorate/mapper/ReviewMapper.java:19-41 | the round trip clears the review id, and is the identity iff the request had none |
| ReviewMapper.ControllerUpdate | src/main/java/ru/yandex/practicum/filmorate/controller/ReviewController.java:43-49 | an accepted update carries a review id |
| ReviewMapper.ControllerUpdateAlwaysRejected | src/main/java/ru/yandex/practicum/filmorate/controller/ReviewController.java:43-49 | every update request is refused as written |
| ReviewMapper.CorrectedControllerUpdate | src/main/java/ru/yandex/practicum/filmorate/controller/ReviewController.java:43-49 | an accepted update carries a review id |
| ReviewMapper.CorrectedUpdateAcceptsNamedReviews | src/main/java/ru/yandex/practicum/filmorate/controller/ReviewController.java:43-49 | with the id kept, refused iff no id, and accepted fields arrive intact |
| LikeDao.CountFor | src/main/java/ru/yandex/practicum/filmorate/storage/dao/like/LikeDaoImpl.java:50-54 | non-negative, and zero iff no user liked the film |
| LikeDao.LikeDao.AddLike | src/main/java/ru/yandex/practicum/filmorate/storage/dao/like/LikeDaoImpl.java:28-36 | the relation gains exactly the (user, film) row |
| LikeDao.LikeDao.DeleteLike | src/main/java/ru/yandex/practicum/filmorate/storage/dao/like/LikeDaoImpl.java:39-47 | the relation loses exactly that row |
| LikeDao.AddLikeCounts | src/main/java/ru/yandex/practicum/filmorate/storage/dao/like/LikeDaoImpl.java:28-54 | a new like raises that film's count by one, leaves other counts, and deleting it restores the relation |
| LikeDao.LikeDao.CheckLikes | src/main/java/ru/yandex/practicum/filmorate/storage/dao/like/LikeDaoImpl.java:50-54 | the number of users who liked the film |
| LikeDao.LikeDao.GetLikesCount | src/main/java/ru/yandex/practicum/filmorate/storage/dao/like/LikeDaoImpl.java:81-85 | the same count as `checkLikes` |
| LikeDao.LikeDao.GetLikedFilms | src/main/java/ru/yandex/practicum/filmorate/storage/dao/like/LikeDaoImpl.java:71-78 | a film is in the set iff the user liked it |
| LikeDao.LikeDao.GetAllLikesMap | src/main/java/ru/yandex/practicum/filmorate/storage/dao/like/LikeDaoImpl.java:57-68 | a user is a key iff they liked something, and maps to exactly their liked films |
| LikeDao.LikeDao.GetLikesCountForAllFilms | src/main/java/ru/yandex/practicum/filmorate/storage/dao/like/LikeDaoImpl.java:88-97 | a film is a key iff liked, and maps to its positive count |
| LikeDao.LikedFilmCounted | src/main/java/ru/yandex/practicum/filmorate/storage/dao/like/LikeDaoImpl.java:88-97 | a film with a like row has a positive count |
| FriendDao.WithoutEdgeEffect | src/main/java/ru/yandex/practicum/filmorate/storage/dao/friends/FriendDaoImpl.java:36-48 | the edge is gone, the reverse edge stays with status false, other edges are untouched |
| FriendDao.FriendDao.ExistsUser | src/main/java/ru/yandex/practicum/filmorate/storage/dao/friends/FriendDaoImpl.java:17-22 | true iff the user has a row |
| FriendDao.FriendDao.AddFriends | src/main/java/ru/yandex/practicum/filmorate/storage/dao/friends/FriendDaoImpl.java:25-33 | NotFound(user) iff either is missing; otherwise exactly the one edge is set |
| FriendDao.FriendDao.DeleteFriends | src/main/java/ru/yandex/practicum/filmorate/storage/dao/friends/FriendDaoImpl.java:36-48 | NotFound(user) iff the user is missing; otherwise the edges become `WithoutEdge` of the old ones |
| FriendDao.FriendDao.StatusFriend | src/main/java/ru/yandex/practicum/filmorate/storage/dao/friends/FriendDaoImpl.java:51-61 | always true |
| FriendDao.FriendDao.GetFriends | src/main/java/ru/yandex/practicum/filmorate/storage/dao/friends/FriendDaoImpl.java:64-70 | exactly the targets of the user's outgoing edges, each once |
| UserDbStorage.UserDbStorage.GetUserById | src/main/java/ru/yandex/practicum/filmorate/storage/user/UserDbStorage.java:70-76 | the row iff present, else NotFound(user) |
| UserDbService.UserDbService.AddFriends | src/main/java/ru/yandex/practicum/filmorate/service/UserDbService.java:72-80 | NotFound(user) iff an id is not positive or a user is missing; otherwise one edge with status true |
| UserDbService.UserDbService.DeleteFriends | src/main/java/ru/yandex/practicum/filmorate/service/UserDbService.java:85-100 | NotFound(user) iff either user is missing; otherwise the DAO's deletion |
| UserDbService.RowsOf | src/main/java/ru/yandex/practicum/filmorate/service/UserDbService.java:121-133 | all rows in id order iff every id has a row, else NotFound(user) |
| UserDbService.UserDbService.GetFriends | src/main/java/ru/yandex/practicum/filmorate/service/UserDbService.java:121-133 | Ok iff `FriendsReadable`: the user has a row with a non-empty email and every friend id has a row; otherwise NotFound(user); then exactly the rows of the user's friends, each once, one row per friend id |
| UserDbService.Mutual | src/main/java/ru/yandex/practicum/filmorate/service/UserDbService.java:105-116 | exactly the elements in both lists, no longer than the second |
| UserDbService.MutualKeepsOrder | src/main/java/ru/yandex/practicum/filmorate/service/UserDbService.java:105-116 | the mutual list is a subsequence of the second list |
| UserDbService.MutualOfSubset | src/main/java/ru/yandex/practicum/filmorate/service/UserDbService.java:105-116 | when the second list is within the first, the mutual list is the second list |
| UserDbService.MutualDistinct | src/main/java/ru/yandex/practicum/filmorate/service/UserDbService.java:111-114 | filtering a list without repeats leaves a list without repeats |
| UserDbService.UserDbService.GetMutualFriends | src/main/java/ru/yandex/practicum/filmorate/service/UserDbService.java:105-116 | Ok iff both friend lists can be read, otherwise NotFound(user); then exactly the rows of the users who are friends of both, each once |
| FilmDbStorage.BuildFilteredQuery | src/main/java/ru/yandex/practicum/filmorate/storage/films/FilmDbStorage.java:111-131 | the clauses appended one by one give the filtered statement and parameter list of `FilteredQueryShape` |
| FilmDbStorage.FilteredQueryShape | src/main/java/ru/yandex/practicum/filmorate/storage/films/FilmDbStorage.java:111-131 | one placeholder per parameter; genre first, then year, each only when given; no filter leaves the bare `SELECT f.* FROM film f` |
| FilmDbStorage.SearchSqlShape | src/main/java/ru/yandex/practicum/filmorate/storage/films/FilmDbStorage.java:149-168 | the four statements the search can build |
| FilmDbStorage.SearchPlaceholdersMatchConditions | src/main/java/ru/yandex/practicum/filmorate/storage/films/FilmDbStorage.java:149-177 | one placeholder per condition, one condition per named field |
| FilmDbStorage.SearchJoinsFollowConditions | src/main/java/ru/yandex/practicum/filmorate/storage/films/FilmDbStorage.java:152-168 | director joins and the director condition appear iff `director` is named; the title condition appears iff `title` is named, and comes first |
| FilmDbStorage.NoConditionLeavesEmptyWhere | src/main/java/ru/yandex/practicum/filmorate/storage/films/FilmDbStorage.java:149-168 | naming neither field leaves no condition: `WHERE` is followed directly by `ORDER BY`, and there is no placeholder |
| FilmDbStorage.BindSearchQuery | src/main/java/ru/yandex/practicum/filmorate/storage/films/FilmDbStorage.java:170-177 | the query is bound once per condition, at indexes 1, 2, … |
| FilmDbStorage.BuildSearchStatement | src/main/java/ru/yandex/practicum/filmorate/storage/films/FilmDbStorage.java:149-168 | the built statement is the search statement for the named fields |
| FilmDbStorage.BuildSearchQuery | src/main/java/ru/yandex/practicum/filmorate/storage/films/FilmDbStorage.java:149-179 | statement for the fields `by` contains, with exactly as many bindings as placeholders, all the query |
| FilmDbStorage.FilmDbStorage.GetFilmById | src/main/java/ru/yandex/practicum/filmorate/storage/films/FilmDbStorage.java:84-92 | the row iff present, else NotFound(film) |
| FilmDbStorage.FilmDbStorage.DeleteById | src/main/java/ru/yandex/practicum/filmorate/storage/films/FilmDbStorage.java:134-139 | NotFound(film) iff no row was deleted; the row is gone |
| FilmDbStorage.FilmDbStorage.UpdateFilm | src/main/java/ru/yandex/practicum/filmorate/storage/films/FilmDbStorage.java:62-76 | no id is IllegalArgument; a null date is refused (`Date.valueOf` throws), and so is a null name, assuming `film.name` is NOT NULL; otherwise the row's name and date are overwritten if it exists |
| FilmDbStorage.FilmDbStorage.RewriteLinks | src/main/java/ru/yandex/practicum/filmorate/storage/dao/genre/GenreDaoImpl.java:44-54 | the film's genre links become the given ids and its directors the given ones, none for null; no other row or column changes |
| FilmDbStorage.RewrittenGenresDecideGenreFilter | src/main/java/ru/yandex/practicum/filmorate/storage/dao/genre/GenreDaoImpl.java:49-54 | after a rewrite a film passes a genre filter only for a genre the rewrite named, so after a null `genres` it passes none |
| FilmDbStorage.FilmDbStorage.GetFilteredFilms | src/main/java/ru/yandex/practicum/filmorate/storage/films/FilmDbStorage.java:111-131 | exactly the rows passing the genre and year filters, each once |
| FilmDbStorage.FilmDbStorage.GetFilmsByIds | src/main/java/ru/yandex/practicum/filmorate/service/FilmDbService.java:327 | exactly the rows whose id is in the set, each once |
| ReviewDao.UsefulAfterLike | src/main/java/ru/yandex/practicum/filmorate/storage/dao/review/ReviewDaoImpl.java:137-145 | a like moves usefulness by +1 from none, +2 from a dislike, 0 from a like |
| ReviewDao.UsefulAfterDislike | src/main/java/ru/yandex/practicum/filmorate/storage/dao/review/ReviewDaoImpl.java:154-162 | a dislike moves usefulness by -1 from none, -2 from a like, 0 from a dislike |
| ReviewDao.UsefulIsPerReview | src/main/java/ru/yandex/practicum/filmorate/storage/dao/review/ReviewDaoImpl.java:231-237 | reactions to one review do not move another's usefulness |
| ReviewDao.UsefulAfterRemoveLike | src/main/java/ru/yandex/practicum/filmorate/storage/dao/review/ReviewDaoImpl.java:171-178 | removing a like lowers usefulness by 1, and removes nothing else |
| ReviewDao.UsefulAfterRemoveDislike | src/main/java/ru/yandex/practicum/filmorate/storage/dao/review/ReviewDaoImpl.java:187-194 | removing a dislike raises usefulness by 1, and removes nothing else |
| ReviewDao.RemoveLikeUndoesAddLike | src/main/java/ru/yandex/practicum/filmorate/storage/dao/review/ReviewDaoImpl.java:137-178 | removing a like undoes adding it when the user had not reacted; over a dislike the user ends with no reaction |
| ReviewDao.ReviewDao.Create | src/main/java/ru/yandex/practicum/filmorate/storage/dao/review/ReviewDaoImpl.java:44-60 | stored under a fresh key with the request's content, type, author, film and useful; the returned review is the input with that id |
| ReviewDao.ReviewDao.Update | src/main/java/ru/yandex/practicum/filmorate/storage/dao/review/ReviewDaoImpl.java:69-78 | content, type and useful of an existing row are overwritten; author and film never change |
| ReviewDao.ReviewDao.Delete | src/main/java/ru/yandex/practicum/filmorate/storage/dao/review/ReviewDaoImpl.java:86-90 | the row is gone, nothing else changes |
| ReviewDao.ReviewDao.FindById | src/main/java/ru/yandex/practicum/filmorate/storage/dao/review/ReviewDaoImpl.java:99-103 | present iff stored, with its id and usefulness |
| ReviewDao.ReviewDao.ReviewsOf | src/main/java/ru/yandex/practicum/filmorate/storage/dao/review/ReviewDaoImpl.java:247-256 | each key's row mapped to a review, in order |
| ReviewDao.ReviewDao.Find | src/main/java/ru/yandex/practicum/filmorate/storage/dao/review/ReviewDaoImpl.java:113-128 | `min(count, n)` distinct reviews of the film (or of all films), most useful first, none left out more useful than one kept |
| ReviewDao.ReviewDao.HasLike | src/main/java/ru/yandex/practicum/filmorate/storage/dao/review/ReviewDaoImpl.java:204-209 | true iff the user's reaction is a like |
| ReviewDao.ReviewDao.HasDislike | src/main/java/ru/yandex/practicum/filmorate/storage/dao/review/ReviewDaoImpl.java:219-224 | true iff the user's reaction is a dislike |
| ReviewDao.ReviewDao.UpdateUseful | src/main/java/ru/yandex/practicum/filmorate/storage/dao/review/ReviewDaoImpl.java:231-237 | the table becomes `WithRecomputedUseful`: the review's useful becomes likes minus dislikes, nothing else changes |
| ReviewDao.RecomputedUsefulFrame | src/main/java/ru/yandex/practicum/filmorate/storage/dao/review/ReviewDaoImpl.java:231-237 | recomputing keeps every key, every other row, and the reviewed row's content, type, author and film |
| ReviewDao.ReviewDao.AddLike | src/main/java/ru/yandex/practicum/filmorate/storage/dao/review/ReviewDaoImpl.java:137-145 | the user's reaction becomes a like; the table becomes `WithRecomputedUseful`, so only the reviewed row's useful changes |
| ReviewDao.ReviewDao.AddDislike | src/main/java/ru/yandex/practicum/filmorate/storage/dao/review/ReviewDaoImpl.java:154-162 | the reaction becomes a dislike; the table becomes `WithRecomputedUseful`, so only the reviewed row's useful changes |
| ReviewDao.ReviewDao.RemoveLike | src/main/java/ru/yandex/practicum/filmorate/storage/dao/review/ReviewDaoImpl.java:171-178 | only a like is deleted, a dislike stays; the table becomes `WithRecomputedUseful`, so only the reviewed row's useful changes |
| ReviewDao.ReviewDao.RemoveDislike | src/main/java/ru/yandex/practicum/filmorate/storage/dao/review/ReviewDaoImpl.java:187-194 | only a dislike is deleted, a like stays; the table becomes `WithRecomputedUseful`, so only the reviewed row's useful changes |
| ReviewService.CreateCheck | src/main/java/ru/yandex/practicum/filmorate/service/ReviewService.java:32-50 | passes iff all fields are present, the content is not blank and author and film exist; blank content is reported first, and unknown ids become validation errors |
| ReviewService.TypeCheckedBeforeExistence | src/main/java/ru/yandex/practicum/filmorate/service/ReviewService.java:32-50 | a review missing only its type is refused for the type, whatever exists |
| ReviewService.ReviewService.Create | src/main/java/ru/yandex/practicum/filmorate/service/ReviewService.java:30-53 | refused with the check's error and nothing stored, or created by the DAO |
| ReviewService.ReviewService.Update | src/main/java/ru/yandex/practicum/filmorate/service/ReviewService.java:55-58 | NotFound(review) with nothing changed unless it exists; otherwise the DAO's update |
| ReviewService.ReviewService.Delete | src/main/java/ru/yandex/practicum/filmorate/service/ReviewService.java:60-63 | NotFound(review) with nothing changed unless it exists; otherwise deleted |
| ReviewService.ReviewService.GetById | src/main/java/ru/yandex/practicum/filmorate/service/ReviewService.java:65-68 | the review iff stored, else NotFound(review) |
| ReviewService.ReviewService.GetByFilmId | src/main/java/ru/yandex/practicum/filmorate/service/ReviewService.java:70-77 | an unknown film is NotFound(film); otherwise `min(count, n)` distinct stored reviews of the film (or of all films), most useful first, none left out more useful than one kept |
| ReviewService.ReviewService.AddLike | src/main/java/ru/yandex/practicum/filmorate/service/ReviewService.java:79-82 | NotFound(user) with nothing changed iff the user is unknown; otherwise the DAO's like: the reaction map changes for this (review, user) only, and the reviews table becomes `WithRecomputedUseful` |
| ReviewService.ReviewService.AddDislike | src/main/java/ru/yandex/practicum/filmorate/service/ReviewService.java:84-87 | NotFound(user) with nothing changed iff the user is unknown; otherwise the DAO's dislike: the reaction map changes for this (review, user) only, and the reviews table becomes `WithRecomputedUseful` |
| ReviewService.ReviewService.RemoveLike | src/main/java/ru/yandex/practicum/filmorate/service/ReviewService.java:89-92 | NotFound(user) with nothing changed iff the user is unknown; otherwise the DAO's like removal: the reaction map changes for this (review, user) only, and the reviews table becomes `WithRecomputedUseful` |
| ReviewService.ReviewService.RemoveDislike | src/main/java/ru/yandex/practicum/filmorate/service/ReviewService.java:94-97 | NotFound(user) with nothing changed iff the user is unknown; otherwise the DAO's dislike removal: the reaction map changes for this (review, user) only, and the reviews table becomes `WithRecomputedUseful` |
| EventDao.FeedOf | src/main/java/ru/yandex/practicum/filmorate/storage/dao/event/EventDaoImpl.java:39-42 | exactly the user's events |
| EventDao.FeedKeepsOrder | src/main/java/ru/yandex/practicum/filmorate/storage/dao/event/EventDaoImpl.java:39-42 | a feed of a log with increasing ids has increasing ids |
| EventDao.FeedOnlyGrows | src/main/java/ru/yandex/practicum/filmorate/storage/dao/event/EventDaoImpl.java:27-42 | appending events keeps the old feed as a prefix |
| EventDao.EventDao.AddEvent | src/main/java/ru/yandex/practicum/filmorate/storage/dao/event/EventDaoImpl.java:27-36 | a null argument is IllegalArgument with nothing appended; otherwise exactly one event with the next id and the given time is appended |
| EventDao.EventDao.GetUserFeed | src/main/java/ru/yandex/practicum/filmorate/storage/dao/event/EventDaoImpl.java:39-42 | exactly the user's events, ids ascending |
| EventDao.EventDao.GetAllEvents | src/main/java/ru/yandex/practicum/filmorate/storage/dao/event/EventDaoImpl.java:44-47 | a permutation of the log, timestamps non-decreasing |
| FilmDbService.ClampedLikes | src/main/java/ru/yandex/practicum/filmorate/service/FilmDbService.java:112-115 | equals the film's like count (the clamp never fires), and is zero iff nobody liked it |
| FilmDbService.NotEarlierIsTotalPreorder | src/main/java/ru/yandex/practicum/filmorate/service/FilmDbService.java:116 | the reversed release-date order is total and transitive |
| FilmDbService.PopularFirstIsTotalPreorder | src/main/java/ru/yandex/practicum/filmorate/service/FilmDbService.java:112-116 | the popular order is a total preorder |
| FilmDbService.PopularListOrder | src/main/java/ru/yandex/practicum/filmorate/service/FilmDbService.java:112-116 | in popular order counts never rise, and among equal counts dates never rise |
| FilmDbService.EffectiveReleaseDate | src/main/java/ru/yandex/practicum/filmorate/service/FilmDbService.java:157-160 | the requested date when valid, otherwise the current one; valid whenever the current one is |
| FilmDbService.ExistenceCheck | src/main/java/ru/yandex/practicum/filmorate/service/FilmDbService.java:231-238 | passes iff film and user exist; the film is checked first |
| FilmDbService.FilmDbService.AddLike | src/main/java/ru/yandex/practicum/filmorate/service/FilmDbService.java:80-84 | the check's outcome; no row on failure, exactly the new row on success |
| FilmDbService.FilmDbService.DeleteLikeFilm | src/main/java/ru/yandex/practicum/filmorate/service/FilmDbService.java:92-95 | the row is deleted with no existence check |
| FilmDbService.FilmDbService.GetPopularFilms | src/main/java/ru/yandex/practicum/filmorate/service/FilmDbService.java:105-120 | IllegalArgument iff topNumber ≤ 0; else `min(topNumber, n)` distinct filtered films, counts non-increasing, later release first on ties, none left out ranks above one kept |
| FilmDbService.FilmDbService.UpdateFilm | src/main/java/ru/yandex/practicum/filmorate/service/FilmDbService.java:151-171 | NotFound(film) unless it exists; a null name is refused with nothing changed (assuming `film.name` is NOT NULL); otherwise the row gets the new name, the effective date and the request's genres and directors (none when null) |
| FilmDbService.FilmDbService.GetCommonFilms | src/main/java/ru/yandex/practicum/filmorate/service/FilmDbService.java:308-342 | NotFound(user) iff a user is missing; else exactly the films both liked, each once, like counts non-increasing |
| FilmDbService.FilmDbService.SearchFilms | src/main/java/ru/yandex/practicum/filmorate/service/FilmDbService.java:353-361 | IllegalArgument iff the parser refuses `by`; else exactly the films matching the lower-cased query, each once, sorted by the comparator |

## Left out

- Controllers, HTTP mapping, `ErrorHandler`, logging and Lombok are left out. The only controller behaviour kept is the review update guard (see Findings).
- The `film_genre`, `film_director`, `mpa` and `genre` tables are left out, with the rest of their DAOs and `enrichFilmWithDetails`. A film row carries its genre ids and directors as data, and `FilmDbStorage.RewriteLinks` stands for the two link rewrites `updateFilm` performs.
- FilmDbStorage.FilmDbStorage.RewriteLinks: the foreign keys of `film_genre` and `film_director` are not modelled, so an unknown genre or director id, or a film without a row, does not fail. The film's directors become the request's `Director` values as given, not values read back from the `directors` table, and a duplicate genre in the request is not a duplicate-key error.
- `getGenresByFilm`, `getFilms`, `getAllFilms` and `getUsers` are plain reads with nothing to state beyond the stored collection.
- `FilmDbStorage.addFilm` and `FilmDbService.addFilm` are left out. Their validation is in `ValidationUtils.validate`, outside this model.
- `getFilmsByUser`, `getFilmsByDirector` and `deleteFilmById` of `FilmDbService` are left out. They only enrich or forward to storages outside this model.
- FilmDbStorage.FilmDbStorage.UpdateFilm: the table definitions are not part of this model, so the refusal of a null name rests on an assumed NOT NULL constraint on `film.name`. The `description`, `duration` and `mpa_id` columns the UPDATE also writes are not modelled, and neither is the NullPointerException that `film.getMpa().getId()` raises for a film without an mpa.
- FilmDbService.FilmDbService.UpdateFilm: inherits both gaps of `FilmDbStorage.FilmDbStorage.UpdateFilm`, the assumed NOT NULL on `film.name` and the unmodelled description, duration and mpa columns with the null-mpa failure.
- UserDbService.UserDbService.GetFriends: the service calls `friendDao.getFriend(id)`, which `FriendDao` does not declare; the model reads it as `getFriends(id)`, the only friend-list query the DAO has.
- `FilmDbStorage.getFilmsByIds` is not declared by the storage that is shown. `FilmDbStorage.FilmDbStorage.GetFilmsByIds` models only its evident intent.
- Recommendations and a feed that includes friends' events are not part of this model.
- Identity columns are counters.
- Foreign keys and cascades are left out.
- The like-count snapshot of the comparator is a constructor argument.
- The clock is a parameter.
- Database access errors other than "no row" are left out.
- Java `long` overflow, Unicode case mapping beyond ASCII and `NullPointerException`s on null collections are not modelled. `toLowerCase` and `isBlank` are ASCII.
- Aliasing of mutable `Film`/`User` objects between callers and stores is not modelled: records are values.
- LikeDao.LikeDao.AddLike: requires the (user, film) row to be new. The source sends a plain INSERT, and whether the database refuses a repeated row is not visible in the code.
- FriendDao.FriendDao.AddFriends: requires the edge to be new when both users exist, for the same reason.
- UserDbService.UserDbService.AddFriends: requires the edge to be new, as it forwards to FriendDao.FriendDao.AddFriends. A repeated friend request, which the source passes on, is not modelled.
- FilmDbService.FilmDbService.AddLike: requires the like row to be new, as it forwards to LikeDao.LikeDao.AddLike. A repeated like, which the source passes on, is not modelled.
- ReviewDao.ReviewDao.Find: `count` is a `nat`. What a negative `LIMIT` does is up to the database, so it is not modelled.
- ReviewService.ReviewService.GetByFilmId: `count` is a `nat`, for the same reason; the source passes a negative count through to `LIMIT`.
- ReviewDao.ReviewDao.FindById: states the id and usefulness of the review found. The other fields are those of `ToReview`.
- FilmDbStorage.FilmDbStorage.GetFilteredFilms: the query has no `ORDER BY`, so the database's row order is unspecified. The model states which rows come back, not their order.
- FilmDbStorage.BuildSearchQuery: tests `by` for the substrings `title` and `director` as the source does. The statement reads a table `films` and orders by `f.rate`, while every other film query in FilmDbStorage.java (lines 80, 86, 112, 135) reads `film` and none reads a `rate` column. What the statement returns is therefore not modelled.
- Validation.IsValidDuration: takes an `int`. The source unboxes an `Integer`, so a null duration throws there; that case is not modelled.

## Findings

| source | as written | input that shows it | evidently intended | confidence | as-written member | corrected member |
|---|---|---|---|---|---|---|
| src/main/java/ru/yandex/practicum/filmorate/controller/ReviewController.java:43-49 | the web-layer `ReviewMapper.toReview` drops `reviewId`, so the null check right after it refuses every update | a request with `reviewId` 1 and all other fields set | the mapping keeps the id, so only requests without one are refused | high; not executed | ReviewMapper.ControllerUpdateAlwaysRejected | ReviewMapper.CorrectedUpdateAcceptsNamedReviews |
