// The list of users currently looking at a trip (src/hooks/useRealtimeCollaboration.ts):
// each "user-presence" event replaces that user's entry, or drops it when
// the user left.
module PresenceList {
  import opened Common

  /** The payload of a "user-presence" event, and the entry the list keeps for it. */
  datatype PresenceRecord = PresenceRecord(
    userId: string, email: string, firstName: Option<string>, lastName: Option<string>, isActive: bool)

  function IsUser(userId: string): PresenceRecord -> bool
  {
    (u: PresenceRecord) => u.userId == userId
  }

  function OtherUser(userId: string): PresenceRecord -> bool
  {
    (u: PresenceRecord) => u.userId != userId
  }

  /** How many entries the list holds for the user. */
  function Entries(list: seq<PresenceRecord>, userId: string): nat
  {
    Count(list, IsUser(userId))
  }

  /** The invariant the reducer keeps: no user is listed twice. */
  ghost predicate OnePerUser(list: seq<PresenceRecord>)
  {
    forall userId :: Entries(list, userId) <= 1
  }

  /** The `setActiveUsers` reducer: drop the user's old entry, then append the event if the user is active. */
  function ApplyPresence(prev: seq<PresenceRecord>, data: PresenceRecord): (r: seq<PresenceRecord>)
    ensures |r| <= |prev| + 1
    ensures forall u :: u in r ==> u == data || u in prev
  {
    var filtered := Filter(prev, OtherUser(data.userId));
    if data.isActive then filtered + [data] else filtered
  }

  /** Appending one element adds one to the count exactly when it satisfies the predicate. */
  lemma CountSnoc<T>(s: seq<T>, x: T, p: T -> bool)
    ensures Count(s + [x], p) == Count(s, p) + (if p(x) then 1 else 0)
  {
    assert (s + [x])[..|s|] == s;
  }

  /** Dropping one user's entries does not change how many entries any other user has. */
  lemma {:induction false} CountAfterDrop(s: seq<PresenceRecord>, dropped: string, userId: string)
    requires userId != dropped
    ensures Count(Filter(s, OtherUser(dropped)), IsUser(userId)) == Count(s, IsUser(userId))
    decreases |s|
  {
    if |s| > 0 {
      var init := s[..|s| - 1];
      var last := s[|s| - 1];
      CountAfterDrop(init, dropped, userId);
      if OtherUser(dropped)(last) {
        CountSnoc(Filter(init, OtherUser(dropped)), last, IsUser(userId));
      }
    }
  }

  /** After an event the user is listed exactly once if active and not at all if not; an active record is last. */
  lemma EventUserListedOnce(prev: seq<PresenceRecord>, data: PresenceRecord)
    ensures Entries(ApplyPresence(prev, data), data.userId) == if data.isActive then 1 else 0
    ensures data.isActive ==> ApplyPresence(prev, data)[|ApplyPresence(prev, data)| - 1] == data
  {
    var filtered := Filter(prev, OtherUser(data.userId));
    assert Count(filtered, IsUser(data.userId)) == 0 by {
      forall u | u in filtered
        ensures !IsUser(data.userId)(u)
      {
        assert OtherUser(data.userId)(u);
      }
    }
    if data.isActive {
      CountSnoc(filtered, data, IsUser(data.userId));
    }
  }

  /** Other users keep their entries, in their original relative order. */
  lemma OthersKeepTheirOrder(prev: seq<PresenceRecord>, data: PresenceRecord)
    ensures Filter(ApplyPresence(prev, data), OtherUser(data.userId)) == Filter(prev, OtherUser(data.userId))
  {
    var keep := OtherUser(data.userId);
    var filtered := Filter(prev, keep);
    forall j | 0 <= j < |filtered|
      ensures keep(filtered[j])
    {
      assert filtered[j] in filtered;
    }
    FilterKeepsAll(filtered, keep);
    if data.isActive {
      FilterAppend(filtered, [data], keep);
      assert Filter([data], keep) == [] by {
        assert [data][..0] == [];
      }
    }
  }

  /** Every other user is listed as often after the event as before it. */
  lemma OtherUsersUnchanged(prev: seq<PresenceRecord>, data: PresenceRecord, userId: string)
    requires userId != data.userId
    ensures Entries(ApplyPresence(prev, data), userId) == Entries(prev, userId)
  {
    var filtered := Filter(prev, OtherUser(data.userId));
    CountAfterDrop(prev, data.userId, userId);
    if data.isActive {
      CountSnoc(filtered, data, IsUser(userId));
    }
  }

  /** The reducer keeps every user listed at most once. */
  lemma PresenceKeepsOnePerUser(prev: seq<PresenceRecord>, data: PresenceRecord)
    requires OnePerUser(prev)
    ensures OnePerUser(ApplyPresence(prev, data))
  {
    var r := ApplyPresence(prev, data);
    forall userId
      ensures Entries(r, userId) <= 1
    {
      if userId == data.userId {
        EventUserListedOnce(prev, data);
      } else {
        OtherUsersUnchanged(prev, data, userId);
      }
    }
  }
}
