/** `EventDaoImpl`: the `events` table as an append-only log whose
    `event_id` column grows with every insert. */
module EventDao {
  import opened Common
  import opened Model
  import opened Sorting

  /** The events of `userId`, in log order: `WHERE user_id = ?` over the
      log. */
  function FeedOf(events: seq<Event>, userId: Id): (r: seq<Event>)
    ensures forall e :: e in r <==> e in events && e.userId == userId
    ensures |r| <= |events|
  {
    if events == [] then []
    else
      var last := events[|events| - 1];
      FeedOf(events[..|events| - 1], userId) + (if last.userId == userId then [last] else [])
  }

  predicate IdsIncreasing(events: seq<Event>) {
    forall i, j :: 0 <= i < j < |events| ==> events[i].eventId < events[j].eventId
  }

  /** Selecting one user's events keeps the order of the log, so a feed read
      in log order is ordered by `event_id`. */
  lemma {:induction false} FeedKeepsOrder(events: seq<Event>, userId: Id)
    requires IdsIncreasing(events)
    ensures IdsIncreasing(FeedOf(events, userId))
  {
    if events != [] {
      var init := events[..|events| - 1];
      var last := events[|events| - 1];
      assert IdsIncreasing(init);
      FeedKeepsOrder(init, userId);
      var feed := FeedOf(init, userId);
      forall e | e in feed ensures e.eventId < last.eventId {
        var k :| 0 <= k < |init| && init[k] == e;
      }
    }
  }

  /** Later events never take an event out of a feed: the feed of a longer
      log starts with the feed of the shorter one. */
  lemma {:induction false} FeedOnlyGrows(events: seq<Event>, more: seq<Event>, userId: Id)
    ensures |FeedOf(events, userId)| <= |FeedOf(events + more, userId)|
    ensures FeedOf(events + more, userId)[..|FeedOf(events, userId)|] == FeedOf(events, userId)
    decreases |more|
  {
    if more == [] {
      assert events + more == events;
    } else {
      var init := more[..|more| - 1];
      FeedOnlyGrows(events, init, userId);
      assert (events + more)[..|events + more| - 1] == events + init;
    }
  }

  class EventDao {
    var events: seq<Event>
    /** The next key the `event_id` identity column generates. */
    var nextId: Id

    ghost predicate Valid()
      reads this
    {
      IdsIncreasing(events) && forall i :: 0 <= i < |events| ==> events[i].eventId < nextId
    }

    constructor()
      ensures events == [] && Valid()
    {
      events := [];
      nextId := 1;
    }

    /** `addEvent(userId, eventType, operation, entityId)`: a null argument
      is IllegalArgumentException and appends nothing; otherwise exactly one
      event is appended, stamped with the clock reading `now`. */
    method AddEvent(userId: Option<Id>, eventType: Option<EventType>, operation: Option<Operation>,
                    entityId: Option<Id>, now: int) returns (o: Outcome)
      requires Valid()
      modifies this
      ensures Valid()
      ensures o.Fail? <==> userId.None? || eventType.None? || operation.None? || entityId.None?
      ensures o.Fail? ==> o.error == IllegalArgument && events == old(events)
      ensures o.Done? ==>
        events == old(events) + [Event(old(nextId), now, userId.value, eventType.value, operation.value, entityId.value)]
      ensures |old(events)| <= |events| && events[..|old(events)|] == old(events)
    {
      if userId.None? || eventType.None? || operation.None? || entityId.None? {
        return Fail(IllegalArgument);
      }
      events := events + [Event(nextId, now, userId.value, eventType.value, operation.value, entityId.value)];
      nextId := nextId + 1;
      o := Done;
    }

    /** `getUserFeed(userId)`: exactly the user's events, by ascending
      `event_id`. */
    function GetUserFeed(userId: Id): (r: seq<Event>)
      reads this
      requires Valid()
      ensures forall e :: e in r <==> e in events && e.userId == userId
      ensures IdsIncreasing(r)
    {
      FeedKeepsOrder(events, userId);
      FeedOf(events, userId)
    }

    /** `getAllEvents()`: every event, by ascending timestamp. */
    function GetAllEvents(): (r: seq<Event>)
      reads this
      ensures multiset(r) == multiset(events)
      ensures forall i, j :: 0 <= i < j < |r| ==> r[i].timestamp <= r[j].timestamp
    {
      var earlierFirst := ByKeyAscending((e: Event) => e.timestamp);
      ByKeyAscendingIsTotalPreorder((e: Event) => e.timestamp);
      SortSorted(earlierFirst, events);
      Sort(earlierFirst, events)
    }
  }
}
