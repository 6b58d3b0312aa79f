/** The `users` table, as far as `UserDbStorage.getUserById` reads it. */
module UserDbStorage {
  import opened Common
  import opened Model

  class UserDbStorage {
    var users: map<Id, UserRow>

    /** Every row is filed under its own `user_id`, the primary key. */
    ghost predicate Valid()
      reads this
    {
      forall id :: id in users ==> users[id].id == id
    }

    constructor(rows: map<Id, UserRow>)
      requires forall id :: id in rows ==> rows[id].id == id
      ensures users == rows && Valid()
    {
      users := rows;
    }

    /** `getUserById`: the row, or EntityNotFoundException when the query
      finds none. */
    function GetUserById(id: Id): (r: Result<UserRow>)
      reads this
      ensures r.Ok? <==> id in users
      ensures r.Ok? ==> r.value == users[id]
      ensures r.Err? ==> r.error == NotFound(UserEntity)
    {
      if id in users then Ok(users[id]) else Err(NotFound(UserEntity))
    }
  }
}
