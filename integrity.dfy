// Each kind of write the server actions perform keeps the database
// consistent: inserting a row with a fresh id whose foreign keys resolve,
// updating columns that are neither keys nor references, and deleting rows
// no other table refers to.
module Integrity {
  import opened Common
  import opened Schema
  import opened Database
  import opened Itinerary
  import opened Updates

  lemma InsertUser(d: Db, u: User)
    requires Consistent(d) && u.id == d.nextId
    requires UserByClerkId(d, u.clerkId).None?
    ensures Consistent(d.(users := d.users + [u], nextId := d.nextId + 1))
    ensures OnlyInvitedRoles(d) ==> OnlyInvitedRoles(d.(users := d.users + [u], nextId := d.nextId + 1))
  {
    AppendUser(d.users, u, d.nextId);
  }

  lemma AppendUser(rows: seq<User>, u: User, next: nat)
    requires UsersOk(rows, next) && u.id == next
    requires forall x :: x in rows ==> x.clerkId != u.clerkId
    ensures UsersOk(rows + [u], next + 1) && UserIds(rows) <= UserIds(rows + [u])
  {
  }

  lemma InsertTrip(d: Db, t: Trip)
    requires Consistent(d) && t.id == d.nextId
    requires t.userId in UserIds(d.users) && t.shareId.None?
    ensures Consistent(d.(trips := d.trips + [t], nextId := d.nextId + 1))
    ensures OnlyInvitedRoles(d) ==> OnlyInvitedRoles(d.(trips := d.trips + [t], nextId := d.nextId + 1))
  {
    var d' := d.(trips := d.trips + [t], nextId := d.nextId + 1);
    assert TripIds(d.trips) <= TripIds(d'.trips);
  }

  /** A row and the activity entry that records it, with consecutive fresh ids. */
  lemma InsertItemLogged(d: Db, x: ItineraryItem, a: Activity)
    requires Consistent(d) && x.id == d.nextId && x.tripId in TripIds(d.trips)
    requires a.id == d.nextId + 1 && a.tripId in TripIds(d.trips) && a.userId in UserIds(d.users)
    ensures Consistent(d.(items := d.items + [x], activity := d.activity + [a], nextId := d.nextId + 2))
    ensures OnlyInvitedRoles(d) ==> OnlyInvitedRoles(d.(items := d.items + [x], activity := d.activity + [a], nextId := d.nextId + 2))
  {
    AppendActivity(d.activity, a, TripIds(d.trips), UserIds(d.users), d.nextId);
  }

  /** A collaborator row and the activity entry that records it, with consecutive fresh ids. */
  lemma InsertCollaboratorLogged(d: Db, c: Collaborator, a: Activity)
    requires Consistent(d) && c.id == d.nextId && c.role != Owner
    requires c.tripId in TripIds(d.trips) && c.userId in UserIds(d.users)
    requires c.invitedBy.Some? ==> c.invitedBy.value in UserIds(d.users)
    requires a.id == d.nextId + 1 && a.tripId in TripIds(d.trips) && a.userId in UserIds(d.users)
    ensures Consistent(d.(collaborators := d.collaborators + [c], activity := d.activity + [a], nextId := d.nextId + 2))
    ensures OnlyInvitedRoles(d) ==>
      OnlyInvitedRoles(d.(collaborators := d.collaborators + [c], activity := d.activity + [a], nextId := d.nextId + 2))
  {
    AppendActivity(d.activity, a, TripIds(d.trips), UserIds(d.users), d.nextId);
  }

  /** A pending invitation (id and token fresh) and the activity entry that records it. */
  lemma InsertInvitationLogged(d: Db, v: PendingInvitation, a: Activity)
    requires Consistent(d) && v.id == d.nextId && v.token == d.nextId + 1
    requires v.tripId in TripIds(d.trips) && v.invitedBy in UserIds(d.users)
    requires a.id == d.nextId + 2 && a.tripId in TripIds(d.trips) && a.userId in UserIds(d.users)
    ensures Consistent(d.(invitations := d.invitations + [v], activity := d.activity + [a], nextId := d.nextId + 3))
    ensures OnlyInvitedRoles(d) ==>
      OnlyInvitedRoles(d.(invitations := d.invitations + [v], activity := d.activity + [a], nextId := d.nextId + 3))
  {
    AppendActivity(d.activity, a, TripIds(d.trips), UserIds(d.users), d.nextId);
    AppendInvitation(d.invitations, v, TripIds(d.trips), UserIds(d.users), d.nextId);
  }

  lemma AppendInvitation(rows: seq<PendingInvitation>, v: PendingInvitation, tripIds: set<Id>, userIds: set<Id>, next: nat)
    requires InvitationsOk(rows, tripIds, userIds, next)
    requires v.id == next && v.token == next + 1 && v.tripId in tripIds && v.invitedBy in userIds
    ensures InvitationsOk(rows + [v], tripIds, userIds, next + 3)
  {
  }

  lemma InsertExpense(d: Db, e: Expense)
    requires Consistent(d) && e.id == d.nextId && e.tripId in TripIds(d.trips)
    ensures Consistent(d.(expenses := d.expenses + [e], nextId := d.nextId + 1))
  {
  }

  lemma InsertRate(d: Db, r: CurrencyRate)
    requires Consistent(d) && r.id == d.nextId && r.tripId in TripIds(d.trips)
    requires RateRow(d, r.tripId, r.currency).None?
    ensures Consistent(d.(rates := d.rates + [r], nextId := d.nextId + 1))
  {
    AppendRate(d.rates, r, TripIds(d.trips), d.nextId);
  }

  lemma AppendRate(rows: seq<CurrencyRate>, r: CurrencyRate, tripIds: set<Id>, next: nat)
    requires RatesOk(rows, tripIds, next) && r.id == next && r.tripId in tripIds
    requires forall x :: x in rows ==> !(x.tripId == r.tripId && x.currency == r.currency)
    ensures RatesOk(rows + [r], tripIds, next + 1)
  {
  }

  lemma InsertBudget(d: Db, b: DailyBudget)
    requires Consistent(d) && b.id == d.nextId && b.tripId in TripIds(d.trips)
    requires b.date == StartOfDay(b.date) && BudgetRow(d, b.tripId, b.date).None?
    ensures Consistent(d.(budgets := d.budgets + [b], nextId := d.nextId + 1))
  {
    AppendBudget(d.budgets, b, TripIds(d.trips), d.nextId);
  }

  lemma AppendBudget(rows: seq<DailyBudget>, b: DailyBudget, tripIds: set<Id>, next: nat)
    requires BudgetsOk(rows, tripIds, next) && b.id == next && b.tripId in tripIds && b.date == StartOfDay(b.date)
    requires forall x :: x in rows ==> !(x.tripId == b.tripId && x.date == b.date)
    ensures BudgetsOk(rows + [b], tripIds, next + 1)
  {
  }

  /** Itinerary items are not referenced by any modelled foreign key, so any change that keeps ids and trips is safe. */
  lemma ReplaceItems(d: Db, items: seq<ItineraryItem>)
    requires Consistent(d) && ItemsOk(items, TripIds(d.trips), d.nextId)
    ensures Consistent(d.(items := items))
  {
  }

  /**
   * An update of item rows that keeps each row's id and trip and treats
   * equal rows alike keeps the item checks.
   */
  lemma ItemRows(items: seq<ItineraryItem>, r: seq<ItineraryItem>, tripIds: set<Id>, next: nat)
    requires ItemsOk(items, tripIds, next) && |r| == |items|
    requires forall i :: 0 <= i < |r| ==> r[i].id == items[i].id && r[i].tripId == items[i].tripId
    requires forall i, j :: 0 <= i < |r| && 0 <= j < |r| && items[i] == items[j] ==> r[i] == r[j]
    ensures ItemsOk(r, tripIds, next)
  {
    forall x | x in r
      ensures x.id < next && x.tripId in tripIds
    {
      var i :| 0 <= i < |r| && r[i] == x;
      assert items[i] in items;
    }
    forall a, b | a in r && b in r && a.id == b.id
      ensures a == b
    {
      var i :| 0 <= i < |r| && r[i] == a;
      var j :| 0 <= j < |r| && r[j] == b;
      assert items[i] in items && items[j] in items;
    }
  }

  /** Renumbering items changes only their `order` column. */
  lemma RenumberOk(d: Db, ids: seq<Id>)
    requires Consistent(d)
    ensures Consistent(d.(items := Renumber(d.items, ids)))
  {
    var r := Renumber(d.items, ids);
    forall i | 0 <= i < |r|
      ensures r[i] == d.items[i].(order := r[i].order)
      ensures d.items[i].id in ids ==> r[i].order == LastIndex(ids, d.items[i].id) + 1
      ensures d.items[i].id !in ids ==> r[i] == d.items[i]
    {
      RenumberAt(d.items, ids, i);
    }
    ItemRows(d.items, r, TripIds(d.trips), d.nextId);
    ReplaceItems(d, r);
  }

  // Deletes: a table that keeps only some of its rows stays consistent,
  // since no modelled foreign key points into these tables.

  lemma KeepItems(d: Db, items: seq<ItineraryItem>)
    requires Consistent(d) && forall x :: x in items ==> x in d.items
    ensures Consistent(d.(items := items))
  {
  }

  lemma KeepInvitations(d: Db, rows: seq<PendingInvitation>)
    requires Consistent(d) && forall v :: v in rows ==> v in d.invitations
    ensures Consistent(d.(invitations := rows))
  {
  }

  lemma KeepExpenses(d: Db, rows: seq<Expense>)
    requires Consistent(d) && forall e :: e in rows ==> e in d.expenses
    ensures Consistent(d.(expenses := rows))
  {
  }

  // Column updates. Each is proved on its own table first, then put back
  // into the database with a `Replace` lemma.

  lemma ReplaceRates(d: Db, rows: seq<CurrencyRate>)
    requires Consistent(d) && RatesOk(rows, TripIds(d.trips), d.nextId)
    ensures Consistent(d.(rates := rows))
  {
  }

  lemma ReplaceBudgets(d: Db, rows: seq<DailyBudget>)
    requires Consistent(d) && BudgetsOk(rows, TripIds(d.trips), d.nextId)
    ensures Consistent(d.(budgets := rows))
  {
  }

  /** Trips replaced by rows that pass the trip checks and carry the same ids. */
  lemma ReplaceTrips(d: Db, trips: seq<Trip>, next: nat)
    requires Consistent(d) && d.nextId <= next
    requires TripsOk(trips, UserIds(d.users), next) && TripIds(trips) == TripIds(d.trips)
    ensures Consistent(d.(trips := trips, nextId := next))
  {
  }

  lemma SetRoleRows(rows: seq<Collaborator>, tripIds: set<Id>, userIds: set<Id>, next: nat,
                    collaboratorId: Id, role: InviteRole, now: Timestamp)
    requires CollaboratorsOk(rows, tripIds, userIds, next)
    ensures CollaboratorsOk(SetRole(rows, collaboratorId, role, now), tripIds, userIds, next)
    ensures (forall c :: c in rows ==> c.role != Owner) ==> forall c :: c in SetRole(rows, collaboratorId, role, now) ==> c.role != Owner
  {
    var r := SetRole(rows, collaboratorId, role, now);
    forall c | c in r
      ensures c.id < next && c.tripId in tripIds && c.userId in userIds
      ensures c.invitedBy.Some? ==> c.invitedBy.value in userIds
      ensures (forall c :: c in rows ==> c.role != Owner) ==> c.role != Owner
    {
      var i :| 0 <= i < |r| && r[i] == c;
      assert rows[i] in rows;
    }
    forall a, b | a in r && b in r && a.id == b.id
      ensures a == b
    {
      var i :| 0 <= i < |r| && r[i] == a;
      var j :| 0 <= j < |r| && r[j] == b;
      assert rows[i] in rows && rows[j] in rows;
    }
  }

  lemma SetCostOk(d: Db, placeId: Id, cost: Option<real>, currency: string)
    requires Consistent(d)
    ensures Consistent(d.(items := SetCost(d.items, placeId, cost, currency)))
  {
    ItemRows(d.items, SetCost(d.items, placeId, cost, currency), TripIds(d.trips), d.nextId);
    ReplaceItems(d, SetCost(d.items, placeId, cost, currency));
  }

  lemma SetRateRows(rows: seq<CurrencyRate>, tripIds: set<Id>, next: nat, tripId: Id, currency: string, rate: real)
    requires RatesOk(rows, tripIds, next)
    ensures RatesOk(SetRate(rows, tripId, currency, rate), tripIds, next)
  {
    var r := SetRate(rows, tripId, currency, rate);
    forall x | x in r
      ensures x.id < next && x.tripId in tripIds
    {
      var i :| 0 <= i < |r| && r[i] == x;
      assert rows[i] in rows;
    }
    forall a, b | a in r && b in r && (a.id == b.id || (a.tripId == b.tripId && a.currency == b.currency))
      ensures a == b
    {
      var i :| 0 <= i < |r| && r[i] == a;
      var j :| 0 <= j < |r| && r[j] == b;
      assert rows[i] in rows && rows[j] in rows;
    }
  }

  /** A rate update keeps the (trip, currency) key, so the pair stays unique. */
  lemma SetRateOk(d: Db, tripId: Id, currency: string, rate: real)
    requires Consistent(d)
    ensures Consistent(d.(rates := SetRate(d.rates, tripId, currency, rate)))
  {
    SetRateRows(d.rates, TripIds(d.trips), d.nextId, tripId, currency, rate);
    ReplaceRates(d, SetRate(d.rates, tripId, currency, rate));
  }

  lemma SetBudgetRows(rows: seq<DailyBudget>, tripIds: set<Id>, next: nat, budgetId: Id, amount: real, currency: string)
    requires BudgetsOk(rows, tripIds, next)
    ensures BudgetsOk(SetBudget(rows, budgetId, amount, currency), tripIds, next)
  {
    var r := SetBudget(rows, budgetId, amount, currency);
    forall x | x in r
      ensures x.id < next && x.tripId in tripIds && x.date == StartOfDay(x.date)
    {
      var i :| 0 <= i < |r| && r[i] == x;
      assert rows[i] in rows;
    }
    forall a, b | a in r && b in r && (a.id == b.id || (a.tripId == b.tripId && a.date == b.date))
      ensures a == b
    {
      var i :| 0 <= i < |r| && r[i] == a;
      var j :| 0 <= j < |r| && r[j] == b;
      assert rows[i] in rows && rows[j] in rows;
    }
  }

  /** A budget update keeps the (trip, day) key and the midnight date. */
  lemma SetBudgetOk(d: Db, budgetId: Id, amount: real, currency: string)
    requires Consistent(d)
    ensures Consistent(d.(budgets := SetBudget(d.budgets, budgetId, amount, currency)))
  {
    SetBudgetRows(d.budgets, TripIds(d.trips), d.nextId, budgetId, amount, currency);
    ReplaceBudgets(d, SetBudget(d.budgets, budgetId, amount, currency));
  }

  /** An update of trip rows that keeps each row's id and owner, and at most gives one trip a fresh share id. */
  lemma TripRows(rows: seq<Trip>, r: seq<Trip>, userIds: set<Id>, next: nat, next': nat, tripId: Id)
    requires TripsOk(rows, userIds, next) && next <= next'
    requires |r| == |rows|
    requires forall i :: 0 <= i < |r| ==> r[i].id == rows[i].id && r[i].userId == rows[i].userId
    requires forall i :: 0 <= i < |r| ==> r[i].shareId == rows[i].shareId || (next' == next + 1 && rows[i].id == tripId && r[i].shareId == Some(next))
    requires forall i, j :: 0 <= i < |r| && 0 <= j < |r| && rows[i] == rows[j] ==> r[i] == r[j]
    ensures TripsOk(r, userIds, next') && TripIds(r) == TripIds(rows)
  {
    forall t | t in r
      ensures t.id < next' && t.userId in userIds
      ensures t.shareId.Some? ==> t.shareId.value < next'
    {
      var i :| 0 <= i < |r| && r[i] == t;
      assert rows[i] in rows;
    }
    forall a, b | a in r && b in r && (a.id == b.id || (a.shareId.Some? && a.shareId == b.shareId))
      ensures a == b
    {
      var i :| 0 <= i < |r| && r[i] == a;
      var j :| 0 <= j < |r| && r[j] == b;
      assert rows[i] in rows && rows[j] in rows;
      assert rows[i] == rows[j];
    }
    forall id | id in TripIds(rows)
      ensures id in TripIds(r)
    {
      var t :| t in rows && t.id == id;
      var i :| 0 <= i < |rows| && rows[i] == t;
      assert r[i] in r;
    }
  }

  /** A trip edit and the activity entry that records it. */
  lemma EditTripLogged(d: Db, tripId: Id, destination: Change<string>,
                       start: Change<Option<Timestamp>>, end: Change<Option<Timestamp>>, now: Timestamp, a: Activity)
    requires Consistent(d)
    requires a.id == d.nextId && a.tripId in TripIds(d.trips) && a.userId in UserIds(d.users)
    ensures Consistent(d.(trips := EditTrip(d.trips, tripId, destination, start, end, now),
                          activity := d.activity + [a], nextId := d.nextId + 1))
  {
    var r := EditTrip(d.trips, tripId, destination, start, end, now);
    TripRows(d.trips, r, UserIds(d.users), d.nextId, d.nextId, tripId);
    ReplaceTripsLogged(d, r, a);
  }

  lemma ReplaceTripsLogged(d: Db, trips: seq<Trip>, a: Activity)
    requires Consistent(d)
    requires TripsOk(trips, UserIds(d.users), d.nextId) && TripIds(trips) == TripIds(d.trips)
    requires a.id == d.nextId && a.tripId in TripIds(d.trips) && a.userId in UserIds(d.users)
    ensures Consistent(d.(trips := trips, activity := d.activity + [a], nextId := d.nextId + 1))
  {
    AppendActivity(d.activity, a, TripIds(d.trips), UserIds(d.users), d.nextId);
  }

  /**
   * Toggling sharing either keeps the trip's share id or gives it one that
   * is fresh (the counter, which then advances); share ids stay unique.
   */
  lemma ShareTripOk(d: Db, tripId: Id, isPublic: bool, shareId: Change<Id>, next: nat, now: Timestamp)
    requires Consistent(d)
    requires shareId.SetTo? ==>
      (TripById(d, tripId).Some? && TripById(d, tripId).value.shareId == Some(shareId.value) && next == d.nextId)
      || (shareId.value == d.nextId && next == d.nextId + 1)
    requires shareId.Keep? ==> next == d.nextId
    ensures Consistent(d.(trips := ShareTrip(d.trips, tripId, isPublic, shareId, now), nextId := next))
  {
    var rows := d.trips;
    var r := ShareTrip(rows, tripId, isPublic, shareId, now);
    var reuse := shareId.SetTo? && TripById(d, tripId).Some? && TripById(d, tripId).value.shareId == Some(shareId.value);
    forall i | 0 <= i < |r|
      ensures r[i].shareId == rows[i].shareId || (next == d.nextId + 1 && rows[i].id == tripId && r[i].shareId == Some(d.nextId))
    {
      if rows[i].id == tripId && reuse {
        assert rows[i] in rows;
      }
    }
    TripRows(rows, r, UserIds(d.users), d.nextId, next, tripId);
    ReplaceTrips(d, r, next);
  }

  /** A rows-kept delete of collaborators and the activity entry that records it. */
  lemma KeepCollaboratorsLogged(d: Db, rows: seq<Collaborator>, a: Activity)
    requires Consistent(d) && forall c :: c in rows ==> c in d.collaborators
    requires a.id == d.nextId && a.tripId in TripIds(d.trips) && a.userId in UserIds(d.users)
    ensures Consistent(d.(collaborators := rows, activity := d.activity + [a], nextId := d.nextId + 1))
    ensures OnlyInvitedRoles(d) ==> OnlyInvitedRoles(d.(collaborators := rows, activity := d.activity + [a], nextId := d.nextId + 1))
  {
    AppendActivity(d.activity, a, TripIds(d.trips), UserIds(d.users), d.nextId);
  }

  /** A role change and the activity entry that records it. */
  lemma SetRoleLogged(d: Db, collaboratorId: Id, role: InviteRole, now: Timestamp, a: Activity)
    requires Consistent(d)
    requires a.id == d.nextId && a.tripId in TripIds(d.trips) && a.userId in UserIds(d.users)
    ensures Consistent(d.(collaborators := SetRole(d.collaborators, collaboratorId, role, now),
                          activity := d.activity + [a], nextId := d.nextId + 1))
    ensures OnlyInvitedRoles(d) ==>
      OnlyInvitedRoles(d.(collaborators := SetRole(d.collaborators, collaboratorId, role, now),
                          activity := d.activity + [a], nextId := d.nextId + 1))
  {
    var r := SetRole(d.collaborators, collaboratorId, role, now);
    SetRoleRows(d.collaborators, TripIds(d.trips), UserIds(d.users), d.nextId, collaboratorId, role, now);
    ReplaceCollaboratorsLogged(d, r, a);
  }

  lemma ReplaceCollaboratorsLogged(d: Db, rows: seq<Collaborator>, a: Activity)
    requires Consistent(d) && CollaboratorsOk(rows, TripIds(d.trips), UserIds(d.users), d.nextId)
    requires OnlyInvitedRoles(d) ==> forall c :: c in rows ==> c.role != Owner
    requires a.id == d.nextId && a.tripId in TripIds(d.trips) && a.userId in UserIds(d.users)
    ensures Consistent(d.(collaborators := rows, activity := d.activity + [a], nextId := d.nextId + 1))
    ensures OnlyInvitedRoles(d) ==> OnlyInvitedRoles(d.(collaborators := rows, activity := d.activity + [a], nextId := d.nextId + 1))
  {
    AppendActivity(d.activity, a, TripIds(d.trips), UserIds(d.users), d.nextId);
  }

  /** An activity entry with a fresh id whose trip and user exist. */
  lemma AppendActivity(rows: seq<Activity>, a: Activity, tripIds: set<Id>, userIds: set<Id>, next: nat)
    requires ActivityOk(rows, tripIds, userIds, next)
    requires next <= a.id && a.tripId in tripIds && a.userId in userIds
    ensures ActivityOk(rows + [a], tripIds, userIds, a.id + 1)
  {
  }
}
