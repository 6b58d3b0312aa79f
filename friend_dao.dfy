/** `FriendDaoImpl`: the `friends` table as directed edges (user, friend),
    each carrying a status flag. */
module FriendDao {
  import opened Common
  import opened Sorting
  import opened Collections
  import opened UserDbStorage

  /** `deleteFriends`' effect on the edges: the edge goes, and the reverse
      edge, if any, stays with its status cleared. */
  function WithoutEdge(edges: map<(Id, Id), bool>, userId: Id, idFriend: Id): map<(Id, Id), bool> {
    var deleted := edges - {(userId, idFriend)};
    if (idFriend, userId) in deleted then deleted[(idFriend, userId) := false] else deleted
  }

  /** What deletion does and does not touch. */
  lemma WithoutEdgeEffect(edges: map<(Id, Id), bool>, userId: Id, idFriend: Id)
    ensures (userId, idFriend) !in WithoutEdge(edges, userId, idFriend)
    ensures userId != idFriend ==>
      ((idFriend, userId) in WithoutEdge(edges, userId, idFriend) <==> (idFriend, userId) in edges)
    ensures userId != idFriend && (idFriend, userId) in edges ==>
      WithoutEdge(edges, userId, idFriend)[(idFriend, userId)] == false
    ensures forall e :: e in edges && e != (userId, idFriend) && e != (idFriend, userId) ==>
      e in WithoutEdge(edges, userId, idFriend) && WithoutEdge(edges, userId, idFriend)[e] == edges[e]
  {
  }

  class FriendDao {
    var edges: map<(Id, Id), bool>
    /** The `users` table that `existsUser` queries. */
    const userTable: UserDbStorage

    constructor(table: UserDbStorage)
      ensures edges == map[] && userTable == table
    {
      edges := map[];
      userTable := table;
    }

    /** `existsUser(userId)`. */
    function ExistsUser(userId: Id): (r: bool)
      reads userTable
      ensures r <==> userId in userTable.users
    {
      userTable.GetUserById(userId).Ok?
    }

    /** `addFriends(userId, idFriend, status)`: both users must exist; then
      the one edge is inserted, never its reverse. Whether the schema lets
      a second copy of an edge in is not visible, so the edge must be new. */
    method AddFriends(userId: Id, idFriend: Id, status: bool) returns (o: Outcome)
      requires userId in userTable.users && idFriend in userTable.users ==> (userId, idFriend) !in edges
      modifies this
      ensures o.Fail? <==> userId !in userTable.users || idFriend !in userTable.users
      ensures o.Fail? ==> o.error == NotFound(UserEntity) && edges == old(edges)
      ensures o.Done? ==> edges == old(edges)[(userId, idFriend) := status]
    {
      if !ExistsUser(userId) || !ExistsUser(idFriend) {
        return Fail(NotFound(UserEntity));
      }
      edges := edges[(userId, idFriend) := status];
      o := Done;
    }

    /** `deleteFriends(userId, idFriend)`: only the user is checked; the
      edge is deleted, then the reverse edge's status is cleared. */
    method DeleteFriends(userId: Id, idFriend: Id) returns (o: Outcome)
      modifies this
      ensures o.Fail? <==> userId !in userTable.users
      ensures o.Fail? ==> o.error == NotFound(UserEntity) && edges == old(edges)
      ensures o.Done? ==> edges == WithoutEdge(old(edges), userId, idFriend)
    {
      if !ExistsUser(userId) {
        return Fail(NotFound(UserEntity));
      }
      edges := edges - {(userId, idFriend)};
      if (idFriend, userId) in edges {
        edges := edges[(idFriend, userId) := false];
      }
      o := Done;
    }

    /** `statusFriend(userId, friendId)`: the EXISTS query always yields a
      row, so the method reports true whether or not the edge exists. */
    function StatusFriend(userId: Id, friendId: Id): (r: bool)
      ensures r
    {
      true
    }

    /** `getFriends(userId)`: the friend of every edge leaving the user,
      whatever its status, each once and in no particular order. */
    method GetFriends(userId: Id) returns (r: seq<Id>)
      ensures forall f :: f in r <==> (userId, f) in edges
      ensures Distinct(r)
    {
      r := SetToSeq(set e | e in edges && e.0 == userId :: e.1);
    }
  }
}
