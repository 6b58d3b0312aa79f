/** The first in-memory `InMemoryUserStorage`: users by id, each with the set
    of ids it calls friends. */
module MemoryUserStorage {
  import opened Common
  import opened Model
  import opened Collections

  /** `addFriend`'s effect on the map: `friendId` joins `userId`'s friend set
      when both users are stored. */
  function WithFriend(users: map<Id, User>, userId: Id, friendId: Id): map<Id, User> {
    if userId in users && friendId in users then
      users[userId := users[userId].(friends := users[userId].friends + {friendId})]
    else users
  }

  /** `removeFriend`'s effect: `friendId` leaves `userId`'s set when `userId`
      is stored, whether or not `friendId` is. */
  function WithoutFriend(users: map<Id, User>, userId: Id, friendId: Id): map<Id, User> {
    if userId in users then
      users[userId := users[userId].(friends := users[userId].friends - {friendId})]
    else users
  }

  /** Every user is stored under its own id, and ids are positive. */
  ghost predicate Keyed(users: map<Id, User>) {
    forall k :: k in users ==> k >= 1 && users[k].id == Some(k)
  }

  lemma WithFriendKeyed(users: map<Id, User>, userId: Id, friendId: Id)
    requires Keyed(users)
    ensures Keyed(WithFriend(users, userId, friendId))
    ensures WithFriend(users, userId, friendId).Keys == users.Keys
  {
  }

  lemma WithoutFriendKeyed(users: map<Id, User>, userId: Id, friendId: Id)
    requires Keyed(users)
    ensures Keyed(WithoutFriend(users, userId, friendId))
    ensures WithoutFriend(users, userId, friendId).Keys == users.Keys
  {
  }

  /** Adding a friend twice is adding it once. */
  lemma AddFriendIdempotent(users: map<Id, User>, userId: Id, friendId: Id)
    ensures WithFriend(WithFriend(users, userId, friendId), userId, friendId)
      == WithFriend(users, userId, friendId)
  {
    var once := WithFriend(users, userId, friendId);
    if userId in users && friendId in users {
      assert once[userId].friends + {friendId} == once[userId].friends;
      assert once[userId := once[userId].(friends := once[userId].friends + {friendId})] == once;
    }
  }

  /** Friendship in the store is one-way: only `userId`'s set changes, and it
      gains `friendId` exactly when both users exist. */
  lemma AddFriendDirectional(users: map<Id, User>, userId: Id, friendId: Id)
    ensures forall k :: k in users && k != userId ==>
      k in WithFriend(users, userId, friendId) && WithFriend(users, userId, friendId)[k] == users[k]
    ensures userId in users ==>
      var after := WithFriend(users, userId, friendId)[userId].friends;
      (friendId in after <==> friendId in users || friendId in users[userId].friends)
  {
  }

  /** Removal leaves `friendId` out of `userId`'s set and touches no other
      user; it changes nothing when `userId` is missing or `friendId` absent. */
  lemma RemoveFriendEffect(users: map<Id, User>, userId: Id, friendId: Id)
    ensures userId in users ==> friendId !in WithoutFriend(users, userId, friendId)[userId].friends
    ensures forall k :: k in users && k != userId ==>
      k in WithoutFriend(users, userId, friendId) && WithoutFriend(users, userId, friendId)[k] == users[k]
    ensures userId !in users || friendId !in users[userId].friends ==>
      WithoutFriend(users, userId, friendId) == users
  {
    if userId in users && friendId !in users[userId].friends {
      var u := users[userId];
      assert u.(friends := u.friends - {friendId}) == u;
      assert users[userId := u] == users;
    }
  }

  /** Removing a friend undoes adding one that was not there before. */
  lemma RemoveUndoesAdd(users: map<Id, User>, userId: Id, friendId: Id)
    requires userId in users && friendId !in users[userId].friends
    ensures WithoutFriend(WithFriend(users, userId, friendId), userId, friendId) == users
  {
    var u := users[userId];
    var added := WithFriend(users, userId, friendId);
    assert added[userId].friends - {friendId} == u.friends;
    assert added[userId].(friends := u.friends) == u;
    assert added[userId := u] == users;
  }

  class InMemoryUserStorage {
    var users: map<Id, User>

    ghost predicate Valid()
      reads this
    {
      Keyed(users)
    }

    constructor()
      ensures users == map[] && Valid()
    {
      users := map[];
    }

    /** `findUserById`: present exactly for a stored id. */
    function FindUserById(id: Id): (r: Option<User>)
      reads this
      ensures r.Some? <==> id in users
      ensures r.Some? ==> r.value == users[id]
    {
      if id in users then Some(users[id]) else None
    }

    /** `addUser`: stores the user under one more than the largest id. */
    method AddUser(user: User) returns (stored: User)
      requires Valid()
      modifies this
      ensures Valid()
      ensures stored.id.Some? && stored.id.value !in old(users)
      ensures forall k :: k in old(users) ==> k < stored.id.value
      ensures old(users) == map[] ==> stored.id == Some(1)
      ensures old(users) != map[] ==> stored.id.value - 1 in old(users)
      ensures stored == user.(id := stored.id)
      ensures users == old(users)[stored.id.value := stored]
    {
      var next := NextId(users);
      stored := user.(id := Some(next));
      users := users[next := stored];
    }

    /** `updateUser`: replaces the user stored under the new user's id, if
      any; otherwise reports absence and changes nothing. */
    method UpdateUser(newUser: User) returns (r: Option<User>)
      requires Valid()
      modifies this
      ensures Valid()
      ensures r.Some? <==> newUser.id.Some? && newUser.id.value in old(users)
      ensures r.Some? ==> r.value == newUser && users == old(users)[newUser.id.value := newUser]
      ensures r.None? ==> users == old(users)
    {
      if newUser.id.Some? && newUser.id.value in users {
        users := users[newUser.id.value := newUser];
        r := Some(newUser);
      } else {
        r := None;
      }
    }

    /** `addFriend(userId, friendId)`. */
    method AddFriend(userId: Id, friendId: Id)
      requires Valid()
      modifies this
      ensures Valid()
      ensures users == WithFriend(old(users), userId, friendId)
    {
      WithFriendKeyed(users, userId, friendId);
      if userId in users && friendId in users {
        var user := users[userId];
        users := users[userId := user.(friends := user.friends + {friendId})];
      }
    }

    /** `removeFriend(userId, friendId)`. */
    method RemoveFriend(userId: Id, friendId: Id)
      requires Valid()
      modifies this
      ensures Valid()
      ensures users == WithoutFriend(old(users), userId, friendId)
    {
      WithoutFriendKeyed(users, userId, friendId);
      if userId in users {
        var user := users[userId];
        users := users[userId := user.(friends := user.friends - {friendId})];
      }
    }

    /** `getFriends(userId)`: the stored users among the ids in the user's
      friend set, unknown ids skipped; nothing for an unknown user. */
    function GetFriends(userId: Id): (r: set<User>)
      reads this
      ensures userId !in users ==> r == {}
    {
      if userId in users then
        set f | f in users[userId].friends && f in users :: users[f]
      else {}
    }

    /** The friends returned are exactly the stored users whose ids the
      user's friend set holds. */
    lemma FriendsAreStoredFriends(userId: Id)
      requires Valid()
      ensures forall v :: v in GetFriends(userId) <==>
        userId in users && v in users.Values && v.id.Some? && v.id.value in users[userId].friends
    {
      forall v | v in users.Values && userId in users && v.id.Some? && v.id.value in users[userId].friends
        ensures v in GetFriends(userId)
      {
        var k := KeyOf(users, v);
        assert v == users[v.id.value];
      }
    }

    /** `getCommonFriends(first, second)`: the stored users in both friend
      sets; nothing unless both users are stored. */
    function GetCommonFriends(firstUserId: Id, secondUserId: Id): (r: set<User>)
      reads this
      ensures firstUserId !in users || secondUserId !in users ==> r == {}
    {
      if firstUserId in users && secondUserId in users then
        set f | f in users[firstUserId].friends * users[secondUserId].friends && f in users :: users[f]
      else {}
    }

    /** Common friends do not depend on which user is named first. */
    lemma CommonFriendsSymmetric(a: Id, b: Id)
      ensures GetCommonFriends(a, b) == GetCommonFriends(b, a)
    {
      if a in users && b in users {
        assert users[a].friends * users[b].friends == users[b].friends * users[a].friends;
      }
    }

    /** The common friends are the users both friend lists return. */
    lemma CommonFriendsAreSharedFriends(a: Id, b: Id)
      requires Valid()
      ensures GetCommonFriends(a, b) == GetFriends(a) * GetFriends(b)
    {
      if a in users && b in users {
        forall v | v in GetFriends(a) * GetFriends(b) ensures v in GetCommonFriends(a, b) {
          var f := v.id.value;
          assert f in users && users[f] == v by {
            var k :| k in users && users[k] == v;
          }
        }
      }
    }
  }
}
