// The ordering rules of a trip's itinerary: a new place goes after the
// places already on its day, and a reorder numbers the dragged places of a
// day 1, 2, 3, ... in the order the client sent them.
module Itinerary {
  import opened Common
  import opened Schema

  /** The items of one trip that fall on one calendar day. */
  function SameDay(items: seq<ItineraryItem>, tripId: Id, day: int): (r: seq<ItineraryItem>)
    ensures forall x :: x in r <==> x in items && x.tripId == tripId && DayOf(x.date) == day
  {
    Filter(items, (x: ItineraryItem) => x.tripId == tripId && DayOf(x.date) == day)
  }

  /** `reduce((max, item) => Math.max(max, item.order), 0)`: the largest order, or 0 for none. */
  function MaxOrder(items: seq<ItineraryItem>): (m: int)
    ensures m >= 0
    ensures forall x :: x in items ==> x.order <= m
    ensures m == 0 || exists x :: x in items && x.order == m
  {
    if |items| == 0 then 0
    else
      var m := MaxOrder(items[..|items| - 1]);
      var last := items[|items| - 1];
      assert items == items[..|items| - 1] + [last];
      if last.order > m then last.order else m
  }

  /** The order `addPlaceToItinerary` gives a new place on `day`: one past the day's largest. */
  function NextOrder(items: seq<ItineraryItem>, tripId: Id, day: int): (o: int)
    ensures o >= 1
    ensures forall x :: x in items && x.tripId == tripId && DayOf(x.date) == day ==> x.order < o
    ensures o == 1 || exists x :: x in items && x.tripId == tripId && DayOf(x.date) == day && x.order == o - 1
  {
    MaxOrder(SameDay(items, tripId, day)) + 1
  }

  /** Places on other days or in other trips do not affect where a new place goes. */
  lemma {:induction false} NextOrderIgnoresOtherDays(items: seq<ItineraryItem>, x: ItineraryItem, tripId: Id, day: int)
    requires x.tripId != tripId || DayOf(x.date) != day
    ensures NextOrder(items + [x], tripId, day) == NextOrder(items, tripId, day)
  {
    var keep := (y: ItineraryItem) => y.tripId == tripId && DayOf(y.date) == day;
    FilterAppend(items, [x], keep);
    assert Filter([x], keep) == [];
    assert Filter(items + [x], keep) == Filter(items, keep);
  }

  /** Places appended one after another on the same day get strictly increasing orders. */
  lemma AppendedPlaceGoesLast(items: seq<ItineraryItem>, x: ItineraryItem, tripId: Id)
    requires x.tripId == tripId && x.order == NextOrder(items, tripId, DayOf(x.date))
    ensures NextOrder(items + [x], tripId, DayOf(x.date)) == x.order + 1
  {
    var day := DayOf(x.date);
    var keep := (y: ItineraryItem) => y.tripId == tripId && DayOf(y.date) == day;
    FilterAppend(items, [x], keep);
    assert Filter([x], keep) == [x];
    var before := Filter(items, keep);
    assert Filter(items + [x], keep) == before + [x];
    assert (before + [x])[..|before|] == before;
  }

  /** The ids of the trip's items on the day. */
  function SameDayIds(items: seq<ItineraryItem>, tripId: Id, day: int): set<Id>
  {
    set x | x in SameDay(items, tripId, day) :: x.id
  }

  /**
   * `updateItineraryOrder`'s `validIds`: the sent ids, in the order sent,
   * that name an item of the trip on the day; the others are dropped.
   */
  function ValidIds(items: seq<ItineraryItem>, tripId: Id, day: int, ids: seq<Id>): (r: seq<Id>)
    ensures |r| <= |ids|
    ensures forall id :: id in r ==> id in ids && exists x :: x in items && x.tripId == tripId && DayOf(x.date) == day && x.id == id
    ensures forall id :: id in ids && id in SameDayIds(items, tripId, day) ==> id in r
  {
    var sameDay := SameDayIds(items, tripId, day);
    Filter(ids, (id: Id) => id in sameDay)
  }

  /** A single sent id is kept exactly when it names one of the day's places. */
  lemma ValidIdsOfOne(items: seq<ItineraryItem>, tripId: Id, day: int, id: Id)
    ensures ValidIds(items, tripId, day, [id]) == if id in SameDayIds(items, tripId, day) then [id] else []
  {
    assert [id][..0] == [];
  }

  /**
   * The check runs id by id: the valid ids of a list are those of its front
   * followed by those of its back, so the kept ids stay in the order sent.
   */
  lemma ValidIdsKeepOrder(items: seq<ItineraryItem>, tripId: Id, day: int, front: seq<Id>, back: seq<Id>)
    ensures ValidIds(items, tripId, day, front + back) ==
      ValidIds(items, tripId, day, front) + ValidIds(items, tripId, day, back)
  {
    var sameDay := SameDayIds(items, tripId, day);
    FilterAppend(front, back, (id: Id) => id in sameDay);
  }

  /** `update itinerary_items set order = o where id = itemId`. */
  function SetOrder(items: seq<ItineraryItem>, itemId: Id, o: int): (r: seq<ItineraryItem>)
    ensures |r| == |items|
    ensures forall i :: 0 <= i < |items| && items[i].id == itemId ==> r[i] == items[i].(order := o)
    ensures forall i :: 0 <= i < |items| && items[i].id != itemId ==> r[i] == items[i]
  {
    seq(|items|, i requires 0 <= i < |items| => if items[i].id == itemId then items[i].(order := o) else items[i])
  }

  /** The items after the updates `order = k + 1 where id = ids[k]`, applied for k = 0, 1, ... in turn. */
  function Renumber(items: seq<ItineraryItem>, ids: seq<Id>): (r: seq<ItineraryItem>)
    ensures |r| == |items|
    decreases |ids|
  {
    if |ids| == 0 then items
    else SetOrder(Renumber(items, ids[..|ids| - 1]), ids[|ids| - 1], |ids|)
  }

  /** The last position at which `id` occurs in `ids`. */
  function LastIndex(ids: seq<Id>, id: Id): (k: nat)
    requires id in ids
    ensures k < |ids| && ids[k] == id
    ensures forall j :: k < j < |ids| ==> ids[j] != id
  {
    if ids[|ids| - 1] == id then |ids| - 1 else LastIndex(ids[..|ids| - 1], id)
  }

  /**
   * What a reorder leaves behind: an item whose id was sent gets the
   * position of its last occurrence plus one; every other item, and every
   * other column, is unchanged.
   */
  lemma {:induction false} RenumberAt(items: seq<ItineraryItem>, ids: seq<Id>, i: nat)
    requires i < |items|
    ensures items[i].id in ids ==> Renumber(items, ids)[i] == items[i].(order := LastIndex(ids, items[i].id) + 1)
    ensures items[i].id !in ids ==> Renumber(items, ids)[i] == items[i]
    decreases |ids|
  {
    if |ids| > 0 {
      var init := ids[..|ids| - 1];
      RenumberAt(items, init, i);
      if items[i].id != ids[|ids| - 1] && items[i].id in ids {
        assert items[i].id in init;
      }
    }
  }

  /**
   * When the client sends each id once, the place sent k-th ends up with
   * order k + 1, so sorting the day by order reproduces the dragged order.
   */
  lemma DistinctIdsNumberedInSentOrder(items: seq<ItineraryItem>, ids: seq<Id>, i: nat, k: nat)
    requires NoDuplicates(ids)
    requires i < |items| && k < |ids| && items[i].id == ids[k]
    ensures Renumber(items, ids)[i].order == k + 1
  {
    RenumberAt(items, ids, i);
  }

  /** A reorder changes only the `order` column of the items whose ids were sent. */
  lemma RenumberKeepsRows(items: seq<ItineraryItem>, ids: seq<Id>)
    ensures forall i :: 0 <= i < |items| ==> Renumber(items, ids)[i] == items[i].(order := Renumber(items, ids)[i].order)
    ensures forall i :: 0 <= i < |items| && items[i].id !in ids ==> Renumber(items, ids)[i] == items[i]
  {
    forall i | 0 <= i < |items|
      ensures Renumber(items, ids)[i] == items[i].(order := Renumber(items, ids)[i].order)
      ensures items[i].id !in ids ==> Renumber(items, ids)[i] == items[i]
    {
      RenumberAt(items, ids, i);
    }
  }
  /**
   * With unique item ids, a reorder of one day of one trip leaves every item
   * on another day, or of another trip, exactly as it was.
   */
  lemma ReorderLeavesOtherDaysAlone(items: seq<ItineraryItem>, tripId: Id, day: int, ids: seq<Id>, i: nat)
    requires forall a, b :: a in items && b in items && a.id == b.id ==> a == b
    requires i < |items| && (items[i].tripId != tripId || DayOf(items[i].date) != day)
    ensures Renumber(items, ValidIds(items, tripId, day, ids))[i] == items[i]
  {
    var valid := ValidIds(items, tripId, day, ids);
    assert items[i] in items;
    forall x | x in items && x.tripId == tripId && DayOf(x.date) == day
      ensures x.id != items[i].id
    {
    }
    RenumberAt(items, valid, i);
  }

  /**
   * When the client sends each of the day's places once and nothing else,
   * no id is dropped, and the place sent k-th gets order k + 1: the day is
   * numbered 1 to n in the dragged order.
   */
  lemma ReorderOfWholeDay(items: seq<ItineraryItem>, tripId: Id, day: int, ids: seq<Id>, i: nat, k: nat)
    requires NoDuplicates(ids)
    requires forall id :: id in ids ==> exists x :: x in items && x.tripId == tripId && DayOf(x.date) == day && x.id == id
    requires i < |items| && k < |ids| && items[i].id == ids[k]
    ensures ValidIds(items, tripId, day, ids) == ids
    ensures Renumber(items, ValidIds(items, tripId, day, ids))[i].order == k + 1
  {
    var sameDay := SameDayIds(items, tripId, day);
    forall j | 0 <= j < |ids|
      ensures ids[j] in sameDay
    {
      assert ids[j] in ids;
      var x :| x in items && x.tripId == tripId && DayOf(x.date) == day && x.id == ids[j];
      assert x in SameDay(items, tripId, day);
    }
    FilterKeepsAll(ids, (id: Id) => id in sameDay);
    DistinctIdsNumberedInSentOrder(items, ids, i, k);
  }
}
