/** `UserService`: checks and mirrored friendship over the first in-memory
    user store. */
module UserService {
  import opened Common
  import opened Model
  import opened Text
  import opened MemoryUserStorage
  import Validation

  /** `addUser`'s renaming: a user whose name is null or empty after trimming
      takes the login as its name; nothing else about the user changes. */
  function WithDefaultName(user: User): (r: User)
    ensures r == user.(name := r.name)
    ensures user.name.Some? && (exists i :: 0 <= i < |user.name.value| && !IsTrimmed(user.name.value[i]))
      ==> r.name == user.name
    ensures user.name.None? || (forall i :: 0 <= i < |user.name.value| ==> IsTrimmed(user.name.value[i]))
      ==> r.name == user.login
  {
    Validation.TrimEmptyIffSome(user.name);
    if user.name.None? || Trim(user.name.value) == [] then user.(name := user.login) else user
  }

  /** Defaulting the name a second time changes nothing. */
  lemma DefaultNameIdempotent(user: User)
    ensures WithDefaultName(WithDefaultName(user)) == WithDefaultName(user)
  {
    Validation.TrimEmptyIffSome(WithDefaultName(user).name);
  }

  /** After both calls of `addFriend` each user is in the other's set, and no
      third user changed. */
  lemma MirroredFriendship(users: map<Id, User>, userId: Id, friendId: Id)
    requires userId in users && friendId in users
    ensures var after := WithFriend(WithFriend(users, userId, friendId), friendId, userId);
      after.Keys == users.Keys
      && friendId in after[userId].friends && userId in after[friendId].friends
      && forall k :: k in users && k != userId && k != friendId ==> after[k] == users[k]
  {
  }

  /** After both calls of `removeFriend` neither user is in the other's set,
      and no third user changed. */
  lemma MirroredRemoval(users: map<Id, User>, userId: Id, friendId: Id)
    requires userId in users && friendId in users
    ensures var after := WithoutFriend(WithoutFriend(users, userId, friendId), friendId, userId);
      after.Keys == users.Keys
      && friendId !in after[userId].friends && userId !in after[friendId].friends
      && forall k :: k in users && k != userId && k != friendId ==> after[k] == users[k]
  {
  }

  class UserService {
    const userStorage: InMemoryUserStorage

    ghost predicate Valid()
      reads this, userStorage
    {
      userStorage.Valid()
    }

    constructor(storage: InMemoryUserStorage)
      ensures userStorage == storage
    {
      userStorage := storage;
    }

    /** `getUserById`: the stored user or EntityNotFoundException. */
    function GetUserById(userId: Id): (r: Result<User>)
      reads userStorage
      ensures r.Ok? <==> userId in userStorage.users
      ensures r.Ok? ==> r.value == userStorage.users[userId]
      ensures r.Err? ==> r.error == NotFound(UserEntity)
    {
      match userStorage.FindUserById(userId)
      case Some(u) => Ok(u)
      case None => Err(NotFound(UserEntity))
    }

    /** `addUser`: defaults the name, then stores the user under a fresh id. */
    method AddUser(user: User) returns (stored: User)
      requires Valid()
      modifies userStorage
      ensures Valid()
      ensures stored == WithDefaultName(user).(id := stored.id)
      ensures stored.id.Some? && stored.id.value !in old(userStorage.users)
      ensures userStorage.users == old(userStorage.users)[stored.id.value := stored]
    {
      stored := userStorage.AddUser(WithDefaultName(user));
    }

    /** `updateUser`: EntityNotFoundException when the store has no user with
      that id. */
    method UpdateUser(user: User) returns (r: Result<User>)
      requires Valid()
      modifies userStorage
      ensures Valid()
      ensures r.Ok? <==> user.id.Some? && user.id.value in old(userStorage.users)
      ensures r.Ok? ==> r.value == user && userStorage.users == old(userStorage.users)[user.id.value := user]
      ensures r.Err? ==> r.error == NotFound(UserEntity) && userStorage.users == old(userStorage.users)
    {
      var found := userStorage.UpdateUser(user);
      r := if found.Some? then Ok(found.value) else Err(NotFound(UserEntity));
    }

    /** `addFriend`: both users must exist; then each joins the other's set. */
    method AddFriend(userId: Id, friendId: Id) returns (o: Outcome)
      requires Valid()
      modifies userStorage
      ensures Valid()
      ensures o.Fail? <==> userId !in old(userStorage.users) || friendId !in old(userStorage.users)
      ensures o.Fail? ==> o.error == NotFound(UserEntity) && userStorage.users == old(userStorage.users)
      ensures o.Done? ==>
        userStorage.users == WithFriend(WithFriend(old(userStorage.users), userId, friendId), friendId, userId)
    {
      if userStorage.FindUserById(userId).None? || userStorage.FindUserById(friendId).None? {
        return Fail(NotFound(UserEntity));
      }
      userStorage.AddFriend(userId, friendId);
      userStorage.AddFriend(friendId, userId);
      o := Done;
    }

    /** `removeFriend`: the user, then the friend, must exist; then each
      leaves the other's set. */
    method RemoveFriend(userId: Id, friendId: Id) returns (o: Outcome)
      requires Valid()
      modifies userStorage
      ensures Valid()
      ensures o.Fail? <==> userId !in old(userStorage.users) || friendId !in old(userStorage.users)
      ensures o.Fail? ==> o.error == NotFound(UserEntity) && userStorage.users == old(userStorage.users)
      ensures o.Done? ==>
        userStorage.users == WithoutFriend(WithoutFriend(old(userStorage.users), userId, friendId), friendId, userId)
    {
      if userStorage.FindUserById(userId).None? {
        return Fail(NotFound(UserEntity));
      }
      if userStorage.FindUserById(friendId).None? {
        return Fail(NotFound(UserEntity));
      }
      userStorage.RemoveFriend(userId, friendId);
      userStorage.RemoveFriend(friendId, userId);
      o := Done;
    }

    /** `getFriends`: EntityNotFoundException for an unknown user, the
      store's friend list otherwise. */
    function GetFriends(userId: Id): (r: Result<set<User>>)
      reads userStorage
      ensures r.Err? <==> userId !in userStorage.users
      ensures r.Err? ==> r.error == NotFound(UserEntity)
      ensures r.Ok? ==> r.value == userStorage.GetFriends(userId)
    {
      if userStorage.FindUserById(userId).None? then Err(NotFound(UserEntity))
      else Ok(userStorage.GetFriends(userId))
    }

    /** `getCommonFriends`: the store's answer, with no existence check. */
    function GetCommonFriends(firstUserId: Id, secondUserId: Id): (r: set<User>)
      reads userStorage
      ensures r == userStorage.GetCommonFriends(firstUserId, secondUserId)
    {
      userStorage.GetCommonFriends(firstUserId, secondUserId)
    }
  }
}
