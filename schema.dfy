// The rows of the trip planner's database tables (users, trips, itinerary
// items, collaborators, activity, presence, pending invitations) and of the
// cost tables the expense actions write (expenses, currency rates, daily
// budgets), with the calendar arithmetic the actions use on timestamps.
module Schema {
  import opened Common

  /** A row identifier. The database generates random UUIDs; the model draws them from a counter. */
  type Id = nat

  /** Milliseconds since the epoch, in the server's (fixed) time zone. */
  type Timestamp = int

  const MsPerDay: int := 86400000

  /** The calendar day of a timestamp: two timestamps have equal `toDateString()` exactly when their days agree. */
  function DayOf(t: Timestamp): int
  {
    t / MsPerDay
  }

  /** `setHours(0, 0, 0, 0)`: midnight at the start of the timestamp's day. */
  function StartOfDay(t: Timestamp): (r: Timestamp)
    ensures r <= t < r + MsPerDay
    ensures DayOf(r) == DayOf(t)
  {
    DayOf(t) * MsPerDay
  }

  /** Midnight is its own start of day, and two timestamps share a day exactly when they share a midnight. */
  lemma StartOfDayCanonical(s: Timestamp, t: Timestamp)
    ensures StartOfDay(StartOfDay(t)) == StartOfDay(t)
    ensures StartOfDay(s) == StartOfDay(t) <==> DayOf(s) == DayOf(t)
  {
  }

  /** `role` of `trip_collaborators`. */
  datatype Role = Owner | Editor | Viewer

  /** `role` of `pending_invitations`, whose enum has no owner. */
  type InviteRole = r: Role | r != Owner witness Viewer

  /** Both role columns default to viewer. */
  const DefaultRole: InviteRole := Viewer

  /** The text stored in the role columns. */
  function RoleName(r: Role): string
  {
    match r
      case Owner => "owner"
      case Editor => "editor"
      case Viewer => "viewer"
  }

  /** Reads a role column back; anything outside the enum is not a role. */
  function ParseRole(s: string): (r: Option<Role>)
    ensures r.Some? <==> s in {"owner", "editor", "viewer"}
  {
    if s == "owner" then Some(Owner)
    else if s == "editor" then Some(Editor)
    else if s == "viewer" then Some(Viewer)
    else None
  }

  /** The role enum is stored and read back without loss. */
  lemma RoleNameRoundTrip(r: Role)
    ensures ParseRole(RoleName(r)) == Some(r)
  {
  }

  datatype User = User(
    id: Id, clerkId: string, email: string,
    firstName: Option<string>, lastName: Option<string>,
    createdAt: Timestamp, updatedAt: Timestamp)

  datatype Trip = Trip(
    id: Id, userId: Id, destination: string,
    startDate: Option<Timestamp>, endDate: Option<Timestamp>,
    isPublic: bool, shareId: Option<Id>,
    createdAt: Timestamp, updatedAt: Timestamp)

  /** An itinerary item, with the cost columns `updatePlaceCost` writes. */
  datatype ItineraryItem = ItineraryItem(
    id: Id, tripId: Id, name: string, description: Option<string>, date: Timestamp,
    latitude: Option<real>, longitude: Option<real>, address: Option<string>,
    order: int, costCents: Option<real>, costCurrency: Option<string>,
    createdAt: Timestamp, updatedAt: Timestamp)

  datatype Collaborator = Collaborator(
    id: Id, tripId: Id, userId: Id, role: Role, invitedBy: Option<Id>,
    invitedAt: Timestamp, acceptedAt: Option<Timestamp>,
    createdAt: Timestamp, updatedAt: Timestamp)

  /** A date argument of `updateTrip`: left out of the call, `null`, or a string. */
  datatype DateArg = Omitted | NullDate | DateText(text: string)

  /** The JSON the actions serialise into the `metadata` column of an activity entry. */
  datatype Metadata =
    | NoMetadata
    | PlaceName(name: string)
    | Invitation(email: string, invitedRole: InviteRole, pending: bool)
    | RoleChange(newRole: InviteRole)
    | TripChanges(destination: Option<string>, startDate: DateArg, endDate: DateArg)

  datatype Activity = Activity(
    id: Id, tripId: Id, userId: Id, action: string,
    entityType: Option<string>, entityId: Option<Id>, metadata: Metadata,
    createdAt: Timestamp)

  datatype Presence = Presence(id: Id, tripId: Id, userId: Id, lastSeenAt: Timestamp, isActive: bool)

  /** An invitation to an e-mail address that has no account yet; the token is the secret in the invite link. */
  datatype PendingInvitation = PendingInvitation(
    id: Id, tripId: Id, email: string, role: InviteRole, invitedBy: Id,
    token: Id, expiresAt: Timestamp, createdAt: Timestamp)

  datatype Expense = Expense(
    id: Id, tripId: Id, itineraryItemId: Option<Id>, date: Timestamp,
    amountCents: int, currency: string, category: string,
    note: Option<string>, receiptUrl: Option<string>)

  /** How many units of the trip's base currency one unit of `currency` is worth. */
  datatype CurrencyRate = CurrencyRate(id: Id, tripId: Id, currency: string, rateToBase: real)

  datatype DailyBudget = DailyBudget(id: Id, tripId: Id, date: Timestamp, amountCents: real, currency: string)

  // The `action` and `entity_type` texts the actions write.
  const AddedItem := "added_item"
  const InvitedCollaborator := "invited_collaborator"
  const RemovedCollaborator := "removed_collaborator"
  const UpdatedCollaboratorRole := "updated_collaborator_role"
  const UpdatedTrip := "updated"
  const ItineraryItemEntity := "itinerary_item"
  const CollaboratorEntity := "collaborator"
  const TripEntity := "trip"
}
