// The database as a value: every table as a sequence of rows, the lookups
// the server actions run, the integrity the schema enforces (primary keys,
// unique columns, foreign keys), the ownership guard the actions share,
// `checkUserAccess`, and the cascade that deleting a trip triggers.
module Database {
  import opened Common
  import opened Schema

  /** All tables, plus the counter the model draws fresh ids, tokens and share ids from. */
  datatype Db = Db(
    users: seq<User>, trips: seq<Trip>, items: seq<ItineraryItem>,
    collaborators: seq<Collaborator>, invitations: seq<PendingInvitation>,
    activity: seq<Activity>, presence: seq<Presence>,
    expenses: seq<Expense>, rates: seq<CurrencyRate>, budgets: seq<DailyBudget>,
    nextId: nat)

  /** Why an action refused: the error it returns or throws, or the sign-in redirect. */
  datatype Failure =
    | Unauthenticated
    | MissingFields
    | DestinationRequired
    | InvalidAmount
    | InvalidCost
    | EndBeforeStart
    | UserNotFound
    | TripNotFound
    | NotOwner
    | TripNotFoundOrNotOwner
    | PlaceNotFound
    | NoInvitePermission
    | AlreadyCollaborator
    | AlreadyInvited
    | CreateUserFailed

  datatype Outcome<+T> = Ok(value: T) | Err(failure: Failure)

  // Lookups. `limit(1)` and `findFirst` return the first matching row.

  function UserByClerkId(d: Db, clerkId: string): Option<User>
  {
    First(d.users, (u: User) => u.clerkId == clerkId)
  }

  function UserByEmail(d: Db, email: string): Option<User>
  {
    First(d.users, (u: User) => u.email == email)
  }

  function TripById(d: Db, tripId: Id): Option<Trip>
  {
    First(d.trips, (t: Trip) => t.id == tripId)
  }

  function ItemById(d: Db, itemId: Id): Option<ItineraryItem>
  {
    First(d.items, (x: ItineraryItem) => x.id == itemId)
  }

  /** An itinerary item with this id that belongs to this trip. */
  function ItemInTrip(d: Db, itemId: Id, tripId: Id): Option<ItineraryItem>
  {
    First(d.items, (x: ItineraryItem) => x.id == itemId && x.tripId == tripId)
  }

  function CollaboratorRow(d: Db, tripId: Id, userId: Id): Option<Collaborator>
  {
    First(d.collaborators, (c: Collaborator) => c.tripId == tripId && c.userId == userId)
  }

  function PendingFor(d: Db, tripId: Id, email: string): Option<PendingInvitation>
  {
    First(d.invitations, (v: PendingInvitation) => v.tripId == tripId && v.email == email)
  }

  function RateRow(d: Db, tripId: Id, currency: string): Option<CurrencyRate>
  {
    First(d.rates, (r: CurrencyRate) => r.tripId == tripId && r.currency == currency)
  }

  function BudgetRow(d: Db, tripId: Id, day: Timestamp): Option<DailyBudget>
  {
    First(d.budgets, (b: DailyBudget) => b.tripId == tripId && b.date == day)
  }

  function UserIds(users: seq<User>): set<Id>
  {
    set u | u in users :: u.id
  }

  function TripIds(trips: seq<Trip>): set<Id>
  {
    set t | t in trips :: t.id
  }

  // Integrity, table by table: ids (and tokens, share ids) come from the
  // counter, primary keys and unique columns hold, foreign keys resolve.

  ghost predicate UsersOk(users: seq<User>, next: nat)
  {
    && (forall u :: u in users ==> u.id < next)
    && (forall a, b :: a in users && b in users && a.id == b.id ==> a == b)
    && (forall a, b :: a in users && b in users && a.clerkId == b.clerkId ==> a == b)
  }

  ghost predicate TripsOk(trips: seq<Trip>, userIds: set<Id>, next: nat)
  {
    && (forall t :: t in trips ==> t.id < next && t.userId in userIds)
    && (forall t :: t in trips && t.shareId.Some? ==> t.shareId.value < next)
    && (forall a, b :: a in trips && b in trips && a.id == b.id ==> a == b)
    && (forall a, b :: a in trips && b in trips && a.shareId.Some? && a.shareId == b.shareId ==> a == b)
  }

  ghost predicate ItemsOk(items: seq<ItineraryItem>, tripIds: set<Id>, next: nat)
  {
    && (forall x :: x in items ==> x.id < next && x.tripId in tripIds)
    && (forall a, b :: a in items && b in items && a.id == b.id ==> a == b)
  }

  ghost predicate CollaboratorsOk(rows: seq<Collaborator>, tripIds: set<Id>, userIds: set<Id>, next: nat)
  {
    && (forall c :: c in rows ==> c.id < next && c.tripId in tripIds && c.userId in userIds)
    && (forall c :: c in rows && c.invitedBy.Some? ==> c.invitedBy.value in userIds)
    && (forall a, b :: a in rows && b in rows && a.id == b.id ==> a == b)
  }

  ghost predicate InvitationsOk(rows: seq<PendingInvitation>, tripIds: set<Id>, userIds: set<Id>, next: nat)
  {
    && (forall v :: v in rows ==> v.id < next && v.token < next && v.tripId in tripIds && v.invitedBy in userIds)
    && (forall a, b :: a in rows && b in rows && a.id == b.id ==> a == b)
    && (forall a, b :: a in rows && b in rows && a.token == b.token ==> a == b)
  }

  ghost predicate ActivityOk(rows: seq<Activity>, tripIds: set<Id>, userIds: set<Id>, next: nat)
  {
    && (forall a :: a in rows ==> a.id < next && a.tripId in tripIds && a.userId in userIds)
    && (forall a, b :: a in rows && b in rows && a.id == b.id ==> a == b)
  }

  ghost predicate PresenceOk(rows: seq<Presence>, tripIds: set<Id>, userIds: set<Id>, next: nat)
  {
    && (forall p :: p in rows ==> p.id < next && p.tripId in tripIds && p.userId in userIds)
    && (forall a, b :: a in rows && b in rows && a.id == b.id ==> a == b)
  }

  ghost predicate ExpensesOk(rows: seq<Expense>, tripIds: set<Id>, next: nat)
  {
    && (forall e :: e in rows ==> e.id < next && e.tripId in tripIds)
    && (forall a, b :: a in rows && b in rows && a.id == b.id ==> a == b)
  }

  /** At most one rate per trip and currency: `setCurrencyRate` upserts on that pair. */
  ghost predicate RatesOk(rows: seq<CurrencyRate>, tripIds: set<Id>, next: nat)
  {
    && (forall r :: r in rows ==> r.id < next && r.tripId in tripIds)
    && (forall a, b :: a in rows && b in rows && a.id == b.id ==> a == b)
    && (forall a, b :: a in rows && b in rows && a.tripId == b.tripId && a.currency == b.currency ==> a == b)
  }

  /** At most one budget per trip and day, each dated at midnight: `setDailyBudget` upserts on that pair. */
  ghost predicate BudgetsOk(rows: seq<DailyBudget>, tripIds: set<Id>, next: nat)
  {
    && (forall b :: b in rows ==> b.id < next && b.tripId in tripIds && b.date == StartOfDay(b.date))
    && (forall a, b :: a in rows && b in rows && a.id == b.id ==> a == b)
    && (forall a, b :: a in rows && b in rows && a.tripId == b.tripId && a.date == b.date ==> a == b)
  }

  ghost predicate Consistent(d: Db)
  {
    var userIds := UserIds(d.users);
    var tripIds := TripIds(d.trips);
    && UsersOk(d.users, d.nextId)
    && TripsOk(d.trips, userIds, d.nextId)
    && ItemsOk(d.items, tripIds, d.nextId)
    && CollaboratorsOk(d.collaborators, tripIds, userIds, d.nextId)
    && InvitationsOk(d.invitations, tripIds, userIds, d.nextId)
    && ActivityOk(d.activity, tripIds, userIds, d.nextId)
    && PresenceOk(d.presence, tripIds, userIds, d.nextId)
    && ExpensesOk(d.expenses, tripIds, d.nextId)
    && RatesOk(d.rates, tripIds, d.nextId)
    && BudgetsOk(d.budgets, tripIds, d.nextId)
  }

  /** Collaborator rows carry only the roles the actions hand out (editor or viewer). */
  ghost predicate OnlyInvitedRoles(d: Db)
  {
    forall c :: c in d.collaborators ==> c.role != Owner
  }

  /** The trip with this id exists and belongs to this user. */
  ghost predicate Owns(d: Db, userId: Id, tripId: Id)
  {
    exists t :: t in d.trips && t.id == tripId && t.userId == userId
  }

  /**
   * The guard of the owner-only actions: the signed-in user's row, then the
   * trip, then the trip's owner must be that user.
   */
  function OwnerCheck(d: Db, clerkId: string, tripId: Id): (r: Outcome<User>)
    ensures r.Ok? ==> r.value in d.users && r.value.clerkId == clerkId
    ensures r.Ok? ==> TripById(d, tripId).Some? && TripById(d, tripId).value.userId == r.value.id
    ensures r == Err(UserNotFound) <==> UserByClerkId(d, clerkId).None?
    ensures r == Err(TripNotFound) <==> UserByClerkId(d, clerkId).Some? && TripById(d, tripId).None?
    ensures r.Err? ==> r.failure in {UserNotFound, TripNotFound, NotOwner}
  {
    match UserByClerkId(d, clerkId)
      case None => Err(UserNotFound)
      case Some(user) =>
        match TripById(d, tripId)
          case None => Err(TripNotFound)
          case Some(trip) => if trip.userId != user.id then Err(NotOwner) else Ok(user)
  }

  /** In a consistent database the guard lets the caller through exactly when the caller owns the trip. */
  lemma OwnerCheckIffOwner(d: Db, clerkId: string, tripId: Id)
    requires Consistent(d)
    ensures OwnerCheck(d, clerkId, tripId).Ok? <==>
      exists u :: u in d.users && u.clerkId == clerkId && Owns(d, u.id, tripId)
  {
    if u :| u in d.users && u.clerkId == clerkId && Owns(d, u.id, tripId) {
      var t :| t in d.trips && t.id == tripId && t.userId == u.id;
      FirstOfUnique(d.users, (x: User) => x.clerkId == clerkId, u);
      FirstOfUnique(d.trips, (x: Trip) => x.id == tripId, t);
    }
  }

  /** The guard of the actions that report a missing trip and a foreign trip with one message. */
  function Combined<T>(r: Outcome<T>): (c: Outcome<T>)
    ensures c.Ok? <==> r.Ok?
    ensures r.Ok? ==> c == r
    ensures c.Err? ==> c.failure == (if r.failure in {TripNotFound, NotOwner} then TripNotFoundOrNotOwner else r.failure)
  {
    if r.Err? && r.failure in {TripNotFound, NotOwner} then Err(TripNotFoundOrNotOwner) else r
  }

  /**
   * The guard of the actions that look the trip up by id and owner in one
   * query: the caller's user row, then a trip row with this id that the
   * caller owns. A missing trip and a foreign trip are one failure.
   */
  function OwnedTrip(d: Db, clerkId: string, tripId: Id): (r: Outcome<Trip>)
    ensures r.Ok? ==> r.value in d.trips && r.value.id == tripId
    ensures r.Ok? ==> UserByClerkId(d, clerkId).Some? && r.value.userId == UserByClerkId(d, clerkId).value.id
    ensures r == Err(UserNotFound) <==> UserByClerkId(d, clerkId).None?
    ensures r.Err? ==> r.failure in {UserNotFound, TripNotFoundOrNotOwner}
  {
    match UserByClerkId(d, clerkId)
      case None => Err(UserNotFound)
      case Some(user) =>
        match First(d.trips, (t: Trip) => t.id == tripId && t.userId == user.id)
          case None => Err(TripNotFoundOrNotOwner)
          case Some(trip) => Ok(trip)
  }

  /**
   * With unique trip ids the one-query guard and the step-by-step guard let
   * the same callers through, find the same trip, and refuse the others
   * with the same failure once a missing and a foreign trip are merged.
   */
  lemma OwnedTripAgreesWithOwnerCheck(d: Db, clerkId: string, tripId: Id)
    requires Consistent(d)
    ensures OwnedTrip(d, clerkId, tripId).Ok? <==> OwnerCheck(d, clerkId, tripId).Ok?
    ensures OwnedTrip(d, clerkId, tripId).Ok? ==> TripById(d, tripId) == Some(OwnedTrip(d, clerkId, tripId).value)
    ensures OwnedTrip(d, clerkId, tripId).Err? ==>
      OwnedTrip(d, clerkId, tripId).failure == Combined(OwnerCheck(d, clerkId, tripId)).failure
  {
    var user := UserByClerkId(d, clerkId);
    if user.Some? {
      var owned := (t: Trip) => t.id == tripId && t.userId == user.value.id;
      var byId := TripById(d, tripId);
      var found := First(d.trips, owned);
      if found.Some? {
        FirstOfUnique(d.trips, (t: Trip) => t.id == tripId, found.value);
      }
    }
  }

  /** `inviteCollaborator`'s permission: the trip's owner, or a collaborator holding the owner or editor role. */
  predicate CanInvite(isOwner: bool, row: Option<Collaborator>)
  {
    isOwner || (row.Some? && row.value.role in {Owner, Editor})
  }

  /** Viewers, and users with no collaborator row, cannot invite unless they own the trip. */
  lemma ViewersCannotInvite(isOwner: bool, row: Option<Collaborator>)
    ensures !isOwner && (row.None? || row.value.role == Viewer) ==> !CanInvite(isOwner, row)
    ensures row.Some? && row.value.role == Editor ==> CanInvite(isOwner, row)
  {
  }

  /**
   * `checkUserAccess`: signed-out callers and callers without a user row have
   * no access; the trip's owner is "owner"; anyone else gets the role of
   * their collaborator row, if they have one.
   */
  function Access(d: Db, clerkId: Option<string>, tripId: Id): (r: Option<Role>)
    ensures clerkId.None? || UserByClerkId(d, clerkId.value).None? ==> r.None?
    ensures r.Some? && r.value != Owner ==>
      clerkId.Some? && UserByClerkId(d, clerkId.value).Some? &&
      CollaboratorRow(d, tripId, UserByClerkId(d, clerkId.value).value.id).Some? &&
      r == Some(CollaboratorRow(d, tripId, UserByClerkId(d, clerkId.value).value.id).value.role)
    ensures r.Some? && r.value != Owner ==>
      exists c :: (c in d.collaborators && c.tripId == tripId && c.role == r.value &&
        c.userId == UserByClerkId(d, clerkId.value).value.id)
  {
    if clerkId.None? then None
    else match UserByClerkId(d, clerkId.value)
      case None => None
      case Some(user) =>
        var trip := TripById(d, tripId);
        if trip.Some? && trip.value.userId == user.id then Some(Owner)
        else match CollaboratorRow(d, tripId, user.id)
          case None => None
          case Some(c) => Some(c.role)
  }

  /**
   * In a consistent database where collaborator rows hold only invited
   * roles, the access check answers "owner" exactly to the trip's owner, and
   * grants some access exactly to the owner and the trip's collaborators.
   */
  lemma AccessIffOwnerOrCollaborator(d: Db, clerkId: string, tripId: Id)
    requires Consistent(d) && OnlyInvitedRoles(d)
    ensures Access(d, Some(clerkId), tripId) == Some(Owner) <==>
      exists u :: u in d.users && u.clerkId == clerkId && Owns(d, u.id, tripId)
    ensures Access(d, Some(clerkId), tripId).Some? <==>
      exists u :: u in d.users && u.clerkId == clerkId &&
        (Owns(d, u.id, tripId) || exists c :: c in d.collaborators && c.tripId == tripId && c.userId == u.id)
  {
    var r := Access(d, Some(clerkId), tripId);
    if u :| u in d.users && u.clerkId == clerkId {
      FirstOfUnique(d.users, (x: User) => x.clerkId == clerkId, u);
      if t :| t in d.trips && t.id == tripId {
        FirstOfUnique(d.trips, (x: Trip) => x.id == tripId, t);
      }
    }
  }

  /**
   * Deleting a trip. The foreign keys on trip ids of the itinerary items,
   * collaborators, invitations, activity and presence tables cascade, so
   * those rows go with it. The expense, rate and budget tables have no
   * schema definition; the model assumes their trip references cascade the
   * same way. Rows of other trips stay.
   */
  function DeleteTripCascade(d: Db, tripId: Id): (r: Db)
    ensures forall t :: t in r.trips <==> t in d.trips && t.id != tripId
    ensures forall x :: x in r.items <==> x in d.items && x.tripId != tripId
    ensures forall c :: c in r.collaborators <==> c in d.collaborators && c.tripId != tripId
    ensures forall v :: v in r.invitations <==> v in d.invitations && v.tripId != tripId
    ensures forall a :: a in r.activity <==> a in d.activity && a.tripId != tripId
    ensures forall p :: p in r.presence <==> p in d.presence && p.tripId != tripId
    ensures forall e :: e in r.expenses <==> e in d.expenses && e.tripId != tripId
    ensures forall x :: x in r.rates <==> x in d.rates && x.tripId != tripId
    ensures forall b :: b in r.budgets <==> b in d.budgets && b.tripId != tripId
    ensures r.users == d.users && r.nextId == d.nextId
  {
    d.(trips := Filter(d.trips, (t: Trip) => t.id != tripId),
       items := Filter(d.items, (x: ItineraryItem) => x.tripId != tripId),
       collaborators := Filter(d.collaborators, (c: Collaborator) => c.tripId != tripId),
       invitations := Filter(d.invitations, (v: PendingInvitation) => v.tripId != tripId),
       activity := Filter(d.activity, (a: Activity) => a.tripId != tripId),
       presence := Filter(d.presence, (p: Presence) => p.tripId != tripId),
       expenses := Filter(d.expenses, (e: Expense) => e.tripId != tripId),
       rates := Filter(d.rates, (x: CurrencyRate) => x.tripId != tripId),
       budgets := Filter(d.budgets, (b: DailyBudget) => b.tripId != tripId))
  }

  /** Removing a trip row removes exactly its id from the set of trip ids. */
  lemma DeleteTripCascadeTripIds(d: Db, tripId: Id)
    ensures TripIds(DeleteTripCascade(d, tripId).trips) == TripIds(d.trips) - {tripId}
  {
    var r := DeleteTripCascade(d, tripId);
    forall i | i in TripIds(d.trips) - {tripId}
      ensures i in TripIds(r.trips)
    {
      var t :| t in d.trips && t.id == i;
      assert t in r.trips;
    }
  }

  /** The cascade leaves a consistent database in which nothing refers to the deleted trip. */
  lemma DeleteTripCascadeConsistent(d: Db, tripId: Id)
    requires Consistent(d)
    ensures Consistent(DeleteTripCascade(d, tripId))
    ensures TripById(DeleteTripCascade(d, tripId), tripId).None?
    ensures OnlyInvitedRoles(d) ==> OnlyInvitedRoles(DeleteTripCascade(d, tripId))
  {
    var r := DeleteTripCascade(d, tripId);
    var userIds, tripIds := UserIds(d.users), TripIds(r.trips);
    DeleteTripCascadeTripIds(d, tripId);
    assert TripsOk(r.trips, userIds, d.nextId);
    assert ItemsOk(r.items, tripIds, d.nextId);
    assert CollaboratorsOk(r.collaborators, tripIds, userIds, d.nextId);
    assert InvitationsOk(r.invitations, tripIds, userIds, d.nextId);
    assert ActivityOk(r.activity, tripIds, userIds, d.nextId);
    assert PresenceOk(r.presence, tripIds, userIds, d.nextId);
    assert ExpensesOk(r.expenses, tripIds, d.nextId);
    assert RatesOk(r.rates, tripIds, d.nextId);
    assert BudgetsOk(r.budgets, tripIds, d.nextId);
  }
}
