/** `LikeDaoImpl`: the `likes` table as a relation of (user, film) rows. */
module LikeDao {
  import opened Common
  import opened Collections

  /** The users who liked `filmId`. */
  function LikersOf(likes: set<(Id, Id)>, filmId: Id): set<Id> {
    set row | row in likes && row.1 == filmId :: row.0
  }

  /** `SELECT COUNT(*) FROM likes WHERE film_id = ?`: the number of rows for
      the film, one per liking user. */
  function CountFor(likes: set<(Id, Id)>, filmId: Id): (r: int)
    ensures r >= 0
    ensures r == 0 <==> forall u :: (u, filmId) !in likes
  {
    var likers := LikersOf(likes, filmId);
    assert forall u :: (u, filmId) in likes ==> u in likers;
    assert likers != {} ==> exists u :: (u, filmId) in likes by {
      if likers != {} {
        var u := Element(likers);
      }
    }
    |likers|
  }

  class LikeDao {
    var likes: set<(Id, Id)>

    constructor()
      ensures likes == {}
    {
      likes := {};
    }

    /** `addLike(userId, filmId)`: inserts the row. Whether the schema lets a
      second identical row in is not visible, so the row must be new. */
    method AddLike(userId: Id, filmId: Id)
      requires (userId, filmId) !in likes
      modifies this
      ensures likes == old(likes) + {(userId, filmId)}
    {
      likes := likes + {(userId, filmId)};
    }

    /** `deleteLike(userId, filmId)`: deletes that row, if there is one. */
    method DeleteLike(userId: Id, filmId: Id)
      modifies this
      ensures likes == old(likes) - {(userId, filmId)}
    {
      likes := likes - {(userId, filmId)};
    }

    /** `checkLikes(filmId)`. */
    function CheckLikes(filmId: Id): (r: int)
      reads this
      ensures r == CountFor(likes, filmId)
    {
      CountFor(likes, filmId)
    }

    /** `getLikesCount(filmId)`: the same count as `checkLikes`. */
    function GetLikesCount(filmId: Id): (r: int)
      reads this
      ensures r == CheckLikes(filmId)
    {
      CountFor(likes, filmId)
    }

    /** `getLikedFilms(userId)`: the films the user liked. */
    function GetLikedFilms(userId: Id): (r: set<Id>)
      reads this
      ensures forall f :: f in r <==> (userId, f) in likes
    {
      set row | row in likes && row.0 == userId :: row.1
    }

    /** `getAllLikesMap()`: reads every row and files the film under its
      user; a user appears exactly when it liked something. */
    method GetAllLikesMap() returns (r: map<Id, set<Id>>)
      ensures forall u :: u in r <==> exists f :: (u, f) in likes
      ensures forall u, f :: u in r ==> (f in r[u] <==> (u, f) in likes)
      ensures forall u :: u in r ==> r[u] == GetLikedFilms(u)
    {
      var rows := SetToSeq(likes);
      r := map[];
      var i := 0;
      while i < |rows|
        invariant 0 <= i <= |rows|
        invariant forall u :: u in r <==> exists f :: (u, f) in rows[..i]
        invariant forall u, f :: u in r ==> (f in r[u] <==> (u, f) in rows[..i])
      {
        var (userId, filmId) := rows[i];
        assert rows[..i + 1] == rows[..i] + [rows[i]];
        var filed := if userId in r then r[userId] else {};
        r := r[userId := filed + {filmId}];
        i := i + 1;
      }
      assert rows[..i] == rows;
    }

    /** `getLikesCountForAllFilms()`: reads the grouped rows, one per liked
      film, and keeps each film's count; films nobody liked are absent. */
    method GetLikesCountForAllFilms() returns (r: map<Id, int>)
      ensures forall f :: f in r <==> exists u :: (u, f) in likes
      ensures forall f :: f in r ==> r[f] == GetLikesCount(f) && r[f] > 0
    {
      var likedFilms := set row | row in likes :: row.1;
      var groups := SetToSeq(likedFilms);
      r := map[];
      var i := 0;
      while i < |groups|
        invariant 0 <= i <= |groups|
        invariant forall f :: f in r <==> f in groups[..i]
        invariant forall f :: f in r ==> r[f] == CountFor(likes, f)
      {
        r := r[groups[i] := CountFor(likes, groups[i])];
        i := i + 1;
      }
      assert groups[..i] == groups;
      forall f | f in r ensures r[f] > 0 {
        assert f in likedFilms;
        var row :| row in likes && row.1 == f;
        LikedFilmCounted(likes, row.0, f);
      }
    }
  }

  /** A film with a row has a positive count. */
  lemma LikedFilmCounted(likes: set<(Id, Id)>, userId: Id, filmId: Id)
    requires (userId, filmId) in likes
    ensures CountFor(likes, filmId) > 0
  {
    assert userId in LikersOf(likes, filmId);
  }

  /** Adding a like raises the film's count by one and leaves every other
      film's count alone; deleting it restores the count. */
  lemma AddLikeCounts(likes: set<(Id, Id)>, userId: Id, filmId: Id, other: Id)
    requires (userId, filmId) !in likes && other != filmId
    ensures CountFor(likes + {(userId, filmId)}, filmId) == CountFor(likes, filmId) + 1
    ensures CountFor(likes + {(userId, filmId)}, other) == CountFor(likes, other)
    ensures (likes + {(userId, filmId)}) - {(userId, filmId)} == likes
  {
    assert LikersOf(likes + {(userId, filmId)}, filmId) == LikersOf(likes, filmId) + {userId};
    assert LikersOf(likes + {(userId, filmId)}, other) == LikersOf(likes, other);
  }
}
