/** `UserDbService`: friendship over the `friends` table and the lists built
    from it. */
module UserDbService {
  import opened Common
  import opened Model
  import opened UserDbStorage
  import opened FriendDao
  import opened Sorting

  /** `r` is `b` with some elements left out, the rest in their order. */
  ghost predicate IsSubsequence<T>(r: seq<T>, b: seq<T>)
    decreases |b|
  {
    r == [] || (b != [] && ((r[0] == b[0] && IsSubsequence(r[1..], b[1..])) || IsSubsequence(r, b[1..])))
  }

  /** The filters of `getMutualFriends`: the second user's friends that are
      also among the first user's, in the second list's order. */
  function Mutual<T(==,!new)>(userFriends: seq<T>, friendFriends: seq<T>): (r: seq<T>)
    ensures |r| <= |friendFriends|
    ensures forall x :: x in r <==> x in friendFriends && x in userFriends
  {
    if friendFriends == [] then []
    else
      var rest := Mutual(userFriends, friendFriends[1..]);
      if friendFriends[0] in userFriends then [friendFriends[0]] + rest else rest
  }

  /** The mutual list keeps the second list's order. */
  lemma {:induction false} MutualKeepsOrder<T(!new)>(userFriends: seq<T>, friendFriends: seq<T>)
    ensures IsSubsequence(Mutual(userFriends, friendFriends), friendFriends)
  {
    if friendFriends != [] {
      MutualKeepsOrder(userFriends, friendFriends[1..]);
      var rest := Mutual(userFriends, friendFriends[1..]);
      if friendFriends[0] in userFriends {
        assert Mutual(userFriends, friendFriends)[1..] == rest;
      } else {
        SubsequenceOfTail(rest, friendFriends);
      }
    }
  }

  /** The mutual list repeats nothing when the second list repeats nothing. */
  lemma {:induction false} MutualDistinct<T(!new)>(userFriends: seq<T>, friendFriends: seq<T>)
    requires Distinct(friendFriends)
    ensures Distinct(Mutual(userFriends, friendFriends))
  {
    if friendFriends != [] {
      var tail := friendFriends[1..];
      DistinctTail(friendFriends);
      MutualDistinct(userFriends, tail);
      var rest := Mutual(userFriends, tail);
      if friendFriends[0] in userFriends {
        assert friendFriends[0] !in tail;
        var m := [friendFriends[0]] + rest;
        forall i, j | 0 <= i < j < |m| ensures m[i] != m[j] {
          if i == 0 {
            assert m[j] == rest[j - 1];
          } else {
            assert m[i] == rest[i - 1] && m[j] == rest[j - 1];
          }
        }
      }
    }
  }

  lemma SubsequenceOfTail<T>(r: seq<T>, b: seq<T>)
    requires b != [] && IsSubsequence(r, b[1..])
    ensures IsSubsequence(r, b)
  {
  }

  /** When every friend of the second user is a friend of the first, the
      mutual list is the second list itself. */
  lemma {:induction false} MutualOfSubset<T(!new)>(userFriends: seq<T>, friendFriends: seq<T>)
    requires forall x :: x in friendFriends ==> x in userFriends
    ensures Mutual(userFriends, friendFriends) == friendFriends
  {
    if friendFriends != [] {
      MutualOfSubset(userFriends, friendFriends[1..]);
      assert friendFriends == [friendFriends[0]] + friendFriends[1..];
    }
  }

  /** `mapToObj(userStorage::getUserById)`: the row of each friend id in turn,
      or EntityNotFoundException at the first id without a row. */
  function RowsOf(users: map<Id, UserRow>, ids: seq<Id>): (r: Result<seq<UserRow>>)
    ensures r.Ok? <==> forall i :: 0 <= i < |ids| ==> ids[i] in users
    ensures r.Err? ==> r.error == NotFound(UserEntity)
    ensures r.Ok? ==> |r.value| == |ids| && forall i :: 0 <= i < |ids| ==> r.value[i] == users[ids[i]]
  {
    if ids == [] then Ok([])
    else if ids[0] !in users then Err(NotFound(UserEntity))
    else
      match RowsOf(users, ids[1..])
      case Ok(rest) => Ok([users[ids[0]]] + rest)
      case Err(e) => Err(e)
  }

  class UserDbService {
    const userStorage: UserDbStorage
    const friendDao: FriendDao

    /** The friends DAO checks users against the same table. */
    ghost predicate Valid()
      reads this, friendDao, userStorage
    {
      friendDao.userTable == userStorage && userStorage.Valid()
    }

    constructor(storage: UserDbStorage, friends: FriendDao)
      requires friends.userTable == storage && storage.Valid()
      ensures userStorage == storage && friendDao == friends && Valid()
    {
      userStorage := storage;
      friendDao := friends;
    }

    /** `addFriends(userId, idFriend)`: both ids must be positive; then one
      edge is inserted with the status `statusFriend` reports, which is
      always true. */
    method AddFriends(userId: Id, idFriend: Id) returns (o: Outcome)
      requires Valid()
      requires userId in userStorage.users && idFriend in userStorage.users ==>
        (userId, idFriend) !in friendDao.edges
      modifies friendDao
      ensures o.Fail? <==>
        userId <= 0 || idFriend <= 0 || userId !in userStorage.users || idFriend !in userStorage.users
      ensures o.Fail? ==> o.error == NotFound(UserEntity) && friendDao.edges == old(friendDao.edges)
      ensures o.Done? ==> friendDao.edges == old(friendDao.edges)[(userId, idFriend) := true]
    {
      if userId > 0 && idFriend > 0 {
        var status := friendDao.StatusFriend(userId, idFriend);
        o := friendDao.AddFriends(userId, idFriend, status);
      } else {
        o := Fail(NotFound(UserEntity));
      }
    }

    /** `deleteFriends(userId, idFriend)`: both users must exist (the user is
      looked up first); then the DAO deletes the edge. */
    method DeleteFriends(userId: Id, idFriend: Id) returns (o: Outcome)
      requires Valid()
      modifies friendDao
      ensures o.Fail? <==> userId !in userStorage.users || idFriend !in userStorage.users
      ensures o.Fail? ==> o.error == NotFound(UserEntity) && friendDao.edges == old(friendDao.edges)
      ensures o.Done? ==> friendDao.edges == WithoutEdge(old(friendDao.edges), userId, idFriend)
    {
      var user := userStorage.GetUserById(userId);
      if user.Err? {
        return Fail(user.error);
      }
      var friend := userStorage.GetUserById(idFriend);
      if friend.Err? {
        return Fail(friend.error);
      }
      o := friendDao.DeleteFriends(userId, idFriend);
    }

    /** Whether `getFriends(id)` succeeds: the user has a row with an email,
      and every friend id has a row. */
    ghost predicate FriendsReadable(id: Id)
      reads this, userStorage, friendDao
    {
      id in userStorage.users && userStorage.users[id].email != ""
      && forall f :: (id, f) in friendDao.edges ==> f in userStorage.users
    }

    /** `getFriends(id)`: EntityNotFoundException for an unknown user or one
      whose email is empty; otherwise the row of every friend id. */
    method GetFriends(id: Id) returns (r: Result<seq<UserRow>>)
      requires Valid()
      ensures id !in userStorage.users ==> r == Err(NotFound(UserEntity))
      ensures id in userStorage.users && userStorage.users[id].email == "" ==> r == Err(NotFound(UserEntity))
      ensures r.Ok? <==> FriendsReadable(id)
      ensures r.Err? ==> r.error == NotFound(UserEntity)
      ensures r.Ok? ==> forall u :: u in r.value ==>
        u in userStorage.users.Values && exists f :: (id, f) in friendDao.edges && f in userStorage.users && userStorage.users[f] == u
      ensures r.Ok? ==> forall f :: (id, f) in friendDao.edges ==> userStorage.users[f] in r.value
      ensures r.Ok? ==> Distinct(r.value)
      ensures r.Ok? ==> |r.value| == |set e | e in friendDao.edges && e.0 == id :: e.1|
    {
      var user := userStorage.GetUserById(id);
      if user.Err? {
        return Err(user.error);
      }
      if user.value.email == "" {
        return Err(NotFound(UserEntity));
      }
      var ids := friendDao.GetFriends(id);
      r := RowsOf(userStorage.users, ids);
      if r.Err? {
        var i :| 0 <= i < |ids| && ids[i] !in userStorage.users;
        assert (id, ids[i]) in friendDao.edges;
      }
      if r.Ok? {
        forall u | u in r.value
          ensures u in userStorage.users.Values
          ensures exists f :: (id, f) in friendDao.edges && f in userStorage.users && userStorage.users[f] == u
        {
          var i :| 0 <= i < |r.value| && r.value[i] == u;
          var f := ids[i];
          assert f in ids && (id, f) in friendDao.edges;
          assert f in userStorage.users && userStorage.users[f] == u;
        }
      }
      if r.Ok? {
        forall f | (id, f) in friendDao.edges
          ensures userStorage.users[f] in r.value
        {
          assert f in ids;
          var i :| 0 <= i < |ids| && ids[i] == f;
          assert f in userStorage.users;
          assert r.value[i] == userStorage.users[f];
        }
        forall i, j | 0 <= i < j < |r.value| ensures r.value[i] != r.value[j] {
          assert r.value[i].id == ids[i] && r.value[j].id == ids[j];
        }
        ghost var friendIds := set e | e in friendDao.edges && e.0 == id :: e.1;
        forall x ensures x in ids <==> x in friendIds {
          if x in friendIds {
            var e :| e in friendDao.edges && e.0 == id && e.1 == x;
            assert e == (id, x);
          }
        }
        DistinctListsSet(ids, friendIds);
      }
    }

    /** `getMutualFriends(userId, idFriend)`: both friend lists must be
      readable; then the second is filtered by the first. */
    method GetMutualFriends(userId: Id, idFriend: Id) returns (r: Result<seq<UserRow>>)
      requires Valid()
      ensures userId !in userStorage.users || idFriend !in userStorage.users ==> r.Err?
      ensures r.Ok? <==> FriendsReadable(userId) && FriendsReadable(idFriend)
      ensures r.Err? ==> r.error == NotFound(UserEntity)
      ensures r.Ok? ==> forall u :: u in r.value ==>
        (exists f :: (userId, f) in friendDao.edges && f in userStorage.users && userStorage.users[f] == u)
        && (exists f :: (idFriend, f) in friendDao.edges && f in userStorage.users && userStorage.users[f] == u)
      ensures r.Ok? ==> forall f :: (userId, f) in friendDao.edges && (idFriend, f) in friendDao.edges ==>
        f in userStorage.users && userStorage.users[f] in r.value
      ensures r.Ok? ==> Distinct(r.value)
    {
      var userFriends := GetFriends(userId);
      if userFriends.Err? {
        return Err(userFriends.error);
      }
      var friendFriends := GetFriends(idFriend);
      if friendFriends.Err? {
        return Err(friendFriends.error);
      }
      MutualDistinct(userFriends.value, friendFriends.value);
      r := Ok(Mutual(userFriends.value, friendFriends.value));
    }
  }
}
