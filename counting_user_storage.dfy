/** The counter-based `InMemoryUserStorage` of the `storage.user` package:
    users by id, ids handed out by a counter starting at 1. */
module CountingUserStorage {
  import opened Common
  import opened Model

  class InMemoryUserStorage {
    var users: map<Id, User>
    /** The next id to hand out. */
    var id: Id

    /** Every stored user sits under its own id, below the counter. */
    ghost predicate Valid()
      reads this
    {
      id >= 1 && forall k :: k in users ==> 1 <= k < id && users[k].id == Some(k)
    }

    constructor()
      ensures users == map[] && id == 1 && Valid()
    {
      users := map[];
      id := 1;
    }

    /** `addUser`: refuses a user whose id is already registered; otherwise
      stores it under the counter and advances the counter. */
    method AddUser(user: User) returns (r: Result<User>)
      requires Valid()
      modifies this
      ensures Valid()
      ensures r.Err? <==> user.id.Some? && user.id.value in old(users)
      ensures r.Err? ==> (r.error == Validation(UserAlreadyRegistered)
        && users == old(users) && id == old(id))
      ensures r.Ok? ==> (r.value == user.(id := Some(old(id)))
        && users == old(users)[old(id) := r.value] && id == old(id) + 1)
      ensures r.Ok? ==> old(id) !in old(users)
    {
      if user.id.Some? && user.id.value in users {
        return Err(Validation(UserAlreadyRegistered));
      }
      var stored := user.(id := Some(id));
      id := id + 1;
      users := users[stored.id.value := stored];
      r := Ok(stored);
    }

    /** `updateUser`: replaces a registered user; an unknown id is
      EntityNotFoundException and nothing changes. */
    method UpdateUser(user: User) returns (r: Result<User>)
      requires Valid()
      modifies this
      ensures Valid() && id == old(id)
      ensures r.Ok? <==> user.id.Some? && user.id.value in old(users)
      ensures r.Ok? ==> r.value == user && users == old(users)[user.id.value := user]
      ensures r.Err? ==> r.error == NotFound(UserEntity) && users == old(users)
    {
      if user.id.Some? && user.id.value in users {
        users := users[user.id.value := user];
        r := Ok(user);
      } else {
        r := Err(NotFound(UserEntity));
      }
    }

    /** `getUserById`: the registered user, or EntityNotFoundException. */
    function GetUserById(userId: Id): (r: Result<User>)
      reads this
      ensures r.Ok? <==> userId in users
      ensures r.Ok? ==> r.value == users[userId]
      ensures r.Err? ==> r.error == NotFound(UserEntity)
    {
      if userId in users then Ok(users[userId]) else Err(NotFound(UserEntity))
    }

    /** `deleteById` is not supported by this store. */
    method DeleteById(userId: Id) returns (o: Outcome)
      ensures o == Fail(Unsupported)
    {
      o := Fail(Unsupported);
    }
  }

  /** Two successful registrations get increasing ids, and the second id is
      not the first one. */
  method RegistrationOrder(s: InMemoryUserStorage, a: User, b: User)
    returns (ra: Result<User>, rb: Result<User>)
    requires s.Valid()
    modifies s
    ensures s.Valid()
    ensures ra.Ok? && rb.Ok? ==> ra.value.id == Some(old(s.id)) && rb.value.id == Some(old(s.id) + 1)
    ensures ra.Ok? && rb.Ok? ==> s.users.Keys == old(s.users.Keys) + {old(s.id), old(s.id) + 1}
  {
    ra := s.AddUser(a);
    rb := s.AddUser(b);
  }
}
