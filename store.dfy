// The server actions of the trip planner, as methods of one object that
// holds the database tables. Every action first asks who is signed in
// (`caller`, the Clerk user id, or None when signed out) and then runs its
// guards in the order the action does; a refused action changes nothing.
// Request fields that arrive as strings and are checked for emptiness are
// `Option<Id>`, with None for the empty string.
module Store {
  import opened Common
  import opened Text
  import opened Numbers
  import opened Schema
  import opened Database
  import opened Itinerary
  import opened Updates
  import Integrity

  /** What `inviteCollaborator` reports: the invitee was added directly, or must follow a link. */
  datatype InviteStatus = Added | Pending(message: string, inviteLink: string)

  /** What `toggleShareTrip` reports on success. */
  datatype ShareState = ShareState(isPublic: bool, shareId: Option<Id>, shareUrl: Option<string>)

  /** `description?.trim() || null`. */
  function StoredDescription(description: Option<string>): (r: Option<string>)
    ensures r.Some? <==> description.Some? && Trim(description.value) != []
    ensures r.Some? ==> r.value == Trim(description.value)
  {
    if description.Some? && Trim(description.value) != [] then Some(Trim(description.value)) else None
  }

  /** `${NEXT_PUBLIC_APP_URL || 'http://localhost:3000'}/invite/${token}`. */
  function InviteLink(appUrl: Option<string>, token: Id): string
  {
    (if Truthy(appUrl) then appUrl.value else "http://localhost:3000") + "/invite/" + NatToString(token)
  }

  /** The invite page can recover the token from the end of the link. */
  lemma InviteLinkCarriesToken(appUrl: Option<string>, token: Id)
    ensures var link := InviteLink(appUrl, token);
      var base := if Truthy(appUrl) then appUrl.value else "http://localhost:3000";
      var tail := link[|base| + |"/invite/"|..];
      AllDigits(tail) && DecimalValue(tail) == token
  {
    var base := if Truthy(appUrl) then appUrl.value else "http://localhost:3000";
    assert InviteLink(appUrl, token)[|base| + |"/invite/"|..] == NatToString(token);
    DecimalRoundTrip(token);
  }

  /** `/share/${shareId}`. */
  function ShareUrl(shareId: Id): string
  {
    "/share/" + NatToString(shareId)
  }

  /** A `Date` argument of `createTrip`: an empty string stores no date. */
  function OptionalDate(s: string, parseDate: string -> Timestamp): (r: Option<Timestamp>)
    ensures r.None? <==> s == ""
    ensures r.Some? ==> r.value == parseDate(s)
  {
    if s == "" then None else Some(parseDate(s))
  }

  /**
   * A date argument of `updateTrip`: left out keeps the column, null or an
   * empty string clears it, any other text is parsed.
   */
  function DateChange(arg: DateArg, parseDate: string -> Timestamp): (r: Change<Option<Timestamp>>)
    ensures r.Keep? <==> arg.Omitted?
    ensures r == SetTo(None) <==> arg.NullDate? || arg == DateText("")
    ensures r.SetTo? && r.value.Some? ==> arg.DateText? && r.value.value == parseDate(arg.text)
  {
    match arg
      case Omitted => Keep
      case NullDate => SetTo(None)
      case DateText(text) => if text == "" then SetTo(None) else SetTo(Some(parseDate(text)))
  }

  /** `start && end && end < start`: both dates are being set, and the end comes first. */
  predicate EndsBeforeStart(start: Change<Option<Timestamp>>, end: Change<Option<Timestamp>>)
  {
    start.SetTo? && start.value.Some? && end.SetTo? && end.value.Some? && end.value.value < start.value.value
  }

  /** `updateTrip` stores a given destination trimmed, and leaves a missing one alone. */
  function NewDestination(destination: Option<string>): (r: Change<string>)
    ensures r.Keep? <==> destination.None?
    ensures r.SetTo? ==> r.value == Trim(destination.value)
  {
    if destination.Some? then SetTo(Trim(destination.value)) else Keep
  }

  class TripStore {
    var users: seq<User>
    var trips: seq<Trip>
    var items: seq<ItineraryItem>
    var collaborators: seq<Collaborator>
    var invitations: seq<PendingInvitation>
    var activity: seq<Activity>
    var presence: seq<Presence>
    var expenses: seq<Expense>
    var rates: seq<CurrencyRate>
    var budgets: seq<DailyBudget>
    var nextId: nat

    /** The tables as one value. */
    function State(): Db
      reads this
    {
      Db(users, trips, items, collaborators, invitations, activity, presence, expenses, rates, budgets, nextId)
    }

    ghost predicate Valid()
      reads this
    {
      Consistent(State()) && OnlyInvitedRoles(State())
    }

    lemma ValidFrom(d: Db)
      requires State() == d && Consistent(d) && OnlyInvitedRoles(d)
      ensures Valid()
    {
    }

    constructor()
      ensures Valid()
      ensures State() == Db([], [], [], [], [], [], [], [], [], [], 0)
    {
      users, trips, items, collaborators, invitations := [], [], [], [], [];
      activity, presence, expenses, rates, budgets := [], [], [], [], [];
      nextId := 0;
    }

    /**
     * The `user.created` webhook: a user row for a new Clerk account. Missing
     * e-mail and names are stored as empty strings. The unique Clerk id
     * makes a second row for the same account fail, and the webhook answers
     * with its "Error creating user" reply.
     */
    method AddUser(clerkId: string, email: Option<string>, firstName: Option<string>, lastName: Option<string>, now: Timestamp)
      returns (r: Outcome<User>)
      requires Valid()
      modifies this
      ensures Valid()
      ensures UserByClerkId(old(State()), clerkId).Some? ==> r == Err(CreateUserFailed) && unchanged(this)
      ensures UserByClerkId(old(State()), clerkId).None? ==>
        r == Ok(User(old(nextId), clerkId, if Truthy(email) then email.value else "",
                     Some(if Truthy(firstName) then firstName.value else ""),
                     Some(if Truthy(lastName) then lastName.value else ""), now, now))
        && State() == old(State()).(users := old(users) + [r.value], nextId := old(nextId) + 1)
    {
      if UserByClerkId(State(), clerkId).Some? {
        return Err(CreateUserFailed);
      }
      var user := User(nextId, clerkId, if Truthy(email) then email.value else "",
                       Some(if Truthy(firstName) then firstName.value else ""),
                       Some(if Truthy(lastName) then lastName.value else ""), now, now);
      InsertUserRow(user);
      r := Ok(user);
    }

    /**
     * `createTrip`: a trip with a non-empty destination, owned by the caller,
     * private, with no share id; an empty date field stores no date.
     */
    method CreateTrip(caller: Option<string>, destination: string, startDate: string, endDate: string,
                      parseDate: string -> Timestamp, now: Timestamp)
      returns (r: Outcome<Trip>)
      requires Valid()
      modifies this
      ensures Valid()
      ensures r.Err? ==> unchanged(this)
      ensures caller.None? ==> r == Err(Unauthenticated)
      ensures caller.Some? && destination == "" ==> r == Err(DestinationRequired)
      ensures caller.Some? && destination != "" && UserByClerkId(old(State()), caller.value).None? ==> r == Err(UserNotFound)
      ensures caller.Some? && destination != "" && UserByClerkId(old(State()), caller.value).Some? ==>
        r == Ok(Trip(old(nextId), UserByClerkId(old(State()), caller.value).value.id, destination,
                     OptionalDate(startDate, parseDate), OptionalDate(endDate, parseDate), false, None, now, now))
        && State() == old(State()).(trips := old(trips) + [r.value], nextId := old(nextId) + 1)
    {
      if caller.None? {
        return Err(Unauthenticated);
      }
      if destination == "" {
        return Err(DestinationRequired);
      }
      var user := UserByClerkId(State(), caller.value);
      if user.None? {
        return Err(UserNotFound);
      }
      var trip := Trip(nextId, user.value.id, destination,
                       OptionalDate(startDate, parseDate), OptionalDate(endDate, parseDate), false, None, now, now);
      assert user.value in users;
      InsertTripRow(trip);
      r := Ok(trip);
    }

    /**
     * `addPlaceToItinerary`: the trip's owner adds a named place on a day. It
     * goes after the places already on that day, and an `added_item` entry
     * naming it (untrimmed, as typed) goes into the trip's activity.
     */
    method AddPlaceToItinerary(caller: Option<string>, tripId: Option<Id>, date: Timestamp, name: string,
                               description: Option<string>, latitude: Option<real>, longitude: Option<real>,
                               address: Option<string>, now: Timestamp)
      returns (r: Outcome<Id>)
      requires Valid()
      modifies this
      ensures Valid()
      ensures r.Err? ==> unchanged(this)
      ensures caller.None? ==> r == Err(Unauthenticated)
      ensures caller.Some? && (tripId.None? || Trim(name) == []) ==> r == Err(MissingFields)
      ensures caller.Some? && tripId.Some? && Trim(name) != [] ==>
        var check := OwnerCheck(old(State()), caller.value, tripId.value);
        && (check.Err? ==> r == Err(check.failure))
        && (check.Ok? ==>
              var item := ItineraryItem(old(nextId), tripId.value, Trim(name), StoredDescription(description), date,
                                        latitude, longitude, address, NextOrder(old(items), tripId.value, DayOf(date)),
                                        None, None, now, now);
              var entry := Activity(old(nextId) + 1, tripId.value, check.value.id, AddedItem, Some(ItineraryItemEntity),
                                    Some(old(nextId)), PlaceName(name), now);
              r == Ok(old(nextId))
              && State() == old(State()).(items := old(items) + [item], activity := old(activity) + [entry],
                                          nextId := old(nextId) + 2))
    {
      if caller.None? {
        return Err(Unauthenticated);
      }
      if tripId.None? || Trim(name) == [] {
        return Err(MissingFields);
      }
      var check := OwnerCheck(State(), caller.value, tripId.value);
      if check.Err? {
        return Err(check.failure);
      }
      var item := ItineraryItem(nextId, tripId.value, Trim(name), StoredDescription(description), date,
                                latitude, longitude, address, NextOrder(items, tripId.value, DayOf(date)),
                                None, None, now, now);
      var entry := Activity(nextId + 1, tripId.value, check.value.id, AddedItem, Some(ItineraryItemEntity),
                            Some(nextId), PlaceName(name), now);
      r := Ok(nextId);
      assert TripById(State(), tripId.value).value in trips;
      InsertItemRow(item, entry);
    }

    /**
     * `deletePlaceFromItinerary`: the trip's owner deletes one of the trip's
     * places. The other places keep their order (there is no renumbering),
     * and no activity entry is written.
     */
    method DeletePlaceFromItinerary(caller: Option<string>, placeId: Option<Id>, tripId: Option<Id>)
      returns (r: Outcome<()>)
      requires Valid()
      modifies this
      ensures Valid()
      ensures r.Err? ==> unchanged(this)
      ensures caller.None? ==> r == Err(Unauthenticated)
      ensures caller.Some? && (placeId.None? || tripId.None?) ==> r == Err(MissingFields)
      ensures caller.Some? && placeId.Some? && tripId.Some? ==>
        var check := OwnerCheck(old(State()), caller.value, tripId.value);
        && (check.Err? ==> r == Err(check.failure))
        && (check.Ok? && ItemInTrip(old(State()), placeId.value, tripId.value).None? ==> r == Err(PlaceNotFound))
        && (check.Ok? && ItemInTrip(old(State()), placeId.value, tripId.value).Some? ==>
              r == Ok(())
              && State() == old(State()).(items := Filter(old(items), (x: ItineraryItem) => x.id != placeId.value)))
    {
      if caller.None? {
        return Err(Unauthenticated);
      }
      if placeId.None? || tripId.None? {
        return Err(MissingFields);
      }
      var check := OwnerCheck(State(), caller.value, tripId.value);
      if check.Err? {
        return Err(check.failure);
      }
      if ItemInTrip(State(), placeId.value, tripId.value).None? {
        return Err(PlaceNotFound);
      }
      var kept := Filter(items, (x: ItineraryItem) => x.id != placeId.value);
      KeepItemRows(kept);
      r := Ok(());
    }

    /**
     * `updateItineraryOrder`: the trip's owner renumbers the places of one
     * day. Sent ids that are not the trip's places on that day are dropped;
     * the k-th remaining id gets order k + 1, one update at a time.
     */
    method UpdateItineraryOrder(caller: Option<string>, tripId: Option<Id>, date: string, placeIdsInOrder: seq<Id>,
                                parseDate: string -> Timestamp)
      returns (r: Outcome<()>)
      requires Valid()
      modifies this
      ensures Valid()
      ensures r.Err? ==> unchanged(this)
      ensures caller.None? ==> r == Err(Unauthenticated)
      ensures caller.Some? && (tripId.None? || date == "" || placeIdsInOrder == []) ==> r == Err(MissingFields)
      ensures caller.Some? && tripId.Some? && date != "" && placeIdsInOrder != [] ==>
        var check := OwnedTrip(old(State()), caller.value, tripId.value);
        && (check.Err? ==> r == Err(check.failure))
        && (check.Ok? ==>
              r == Ok(())
              && State() == old(State()).(items := Renumber(old(items),
                   ValidIds(old(items), tripId.value, DayOf(parseDate(date)), placeIdsInOrder))))
    {
      if caller.None? {
        return Err(Unauthenticated);
      }
      if tripId.None? || date == "" || placeIdsInOrder == [] {
        return Err(MissingFields);
      }
      var check := OwnedTrip(State(), caller.value, tripId.value);
      if check.Err? {
        return Err(check.failure);
      }
      var validIds := ValidIds(items, tripId.value, DayOf(parseDate(date)), placeIdsInOrder);
      RenumberRows(validIds);
      r := Ok(());
    }

    /** The loop of `updateItineraryOrder`: the k-th id's row gets order k + 1, one update at a time. */
    method RenumberRows(ids: seq<Id>)
      requires Valid()
      modifies this
      ensures Valid()
      ensures State() == old(State()).(items := Renumber(old(items), ids))
    {
      ghost var d := State();
      var idx := 0;
      while idx < |ids|
        invariant 0 <= idx <= |ids|
        invariant State() == d.(items := Renumber(d.items, ids[..idx]))
      {
        items := SetOrder(items, ids[idx], idx + 1);
        assert ids[..idx + 1][..idx] == ids[..idx];
        idx := idx + 1;
      }
      assert ids[..|ids|] == ids;
      Integrity.RenumberOk(d, ids);
      ValidFrom(State());
    }

    /**
     * `inviteCollaborator`: the trip's owner, or a collaborator with the
     * owner or editor role, invites an e-mail address. A registered user is
     * added at once as an accepted collaborator; an unknown address gets a
     * pending invitation, valid for seven days, whose token is in the
     * returned link. Either way one `invited_collaborator` entry is logged.
     * A second invitation of a collaborator or of a pending address fails.
     */
    method InviteCollaborator(caller: Option<string>, tripId: Id, email: string, role: InviteRole,
                              appUrl: Option<string>, now: Timestamp)
      returns (r: Outcome<InviteStatus>)
      requires Valid()
      modifies this
      ensures Valid()
      ensures r.Err? ==> unchanged(this)
      ensures caller.None? ==> r == Err(Unauthenticated)
      ensures caller.Some? ==>
        var d := old(State());
        var user := UserByClerkId(d, caller.value);
        var trip := TripById(d, tripId);
        && (user.None? ==> r == Err(UserNotFound))
        && (user.Some? && trip.None? ==> r == Err(TripNotFound))
        && (user.Some? && trip.Some? ==>
              var allowed := CanInvite(trip.value.userId == user.value.id, CollaboratorRow(d, tripId, user.value.id));
              var invitee := UserByEmail(d, email);
              && (!allowed ==> r == Err(NoInvitePermission))
              && (allowed && invitee.Some? && CollaboratorRow(d, tripId, invitee.value.id).Some? ==>
                    r == Err(AlreadyCollaborator))
              && (allowed && invitee.Some? && CollaboratorRow(d, tripId, invitee.value.id).None? ==>
                    r == Ok(Added)
                    && State() == d.(collaborators := d.collaborators +
                                       [Collaborator(d.nextId, tripId, invitee.value.id, role, Some(user.value.id), now, Some(now), now, now)],
                                     activity := d.activity +
                                       [Activity(d.nextId + 1, tripId, user.value.id, InvitedCollaborator, Some(CollaboratorEntity),
                                                 Some(invitee.value.id), Invitation(email, role, false), now)],
                                     nextId := d.nextId + 2))
              && (allowed && invitee.None? && PendingFor(d, tripId, email).Some? ==> r == Err(AlreadyInvited))
              && (allowed && invitee.None? && PendingFor(d, tripId, email).None? ==>
                    var link := InviteLink(appUrl, d.nextId + 1);
                    r == Ok(Pending("Invitation sent! Share this link with " + email + ": " + link, link))
                    && State() == d.(invitations := d.invitations +
                                       [PendingInvitation(d.nextId, tripId, email, role, user.value.id, d.nextId + 1, now + 7 * MsPerDay, now)],
                                     activity := d.activity +
                                       [Activity(d.nextId + 2, tripId, user.value.id, InvitedCollaborator, Some(CollaboratorEntity),
                                                 None, Invitation(email, role, true), now)],
                                     nextId := d.nextId + 3)))
    {
      if caller.None? {
        return Err(Unauthenticated);
      }
      var user := UserByClerkId(State(), caller.value);
      if user.None? {
        return Err(UserNotFound);
      }
      var trip := TripById(State(), tripId);
      if trip.None? {
        return Err(TripNotFound);
      }
      var isOwner := trip.value.userId == user.value.id;
      if !CanInvite(isOwner, CollaboratorRow(State(), tripId, user.value.id)) {
        return Err(NoInvitePermission);
      }
      assert trip.value in trips && user.value in users;
      r := InviteAllowed(tripId, user.value.id, email, role, appUrl, now);
    }

    /**
     * `inviteCollaborator` once the inviter may invite: add a registered
     * invitee at once, or record a pending invitation for an unknown address,
     * unless the invitee is already a collaborator or already invited.
     */
    method InviteAllowed(tripId: Id, inviterId: Id, email: string, role: InviteRole, appUrl: Option<string>, now: Timestamp)
      returns (r: Outcome<InviteStatus>)
      requires Valid()
      requires tripId in TripIds(trips) && inviterId in UserIds(users)
      modifies this
      ensures Valid()
      ensures r.Err? ==> unchanged(this)
      ensures
        var d := old(State());
        var invitee := UserByEmail(d, email);
        && (invitee.Some? && CollaboratorRow(d, tripId, invitee.value.id).Some? ==> r == Err(AlreadyCollaborator))
        && (invitee.Some? && CollaboratorRow(d, tripId, invitee.value.id).None? ==>
              r == Ok(Added)
              && State() == d.(collaborators := d.collaborators +
                                 [Collaborator(d.nextId, tripId, invitee.value.id, role, Some(inviterId), now, Some(now), now, now)],
                               activity := d.activity +
                                 [Activity(d.nextId + 1, tripId, inviterId, InvitedCollaborator, Some(CollaboratorEntity),
                                           Some(invitee.value.id), Invitation(email, role, false), now)],
                               nextId := d.nextId + 2))
        && (invitee.None? && PendingFor(d, tripId, email).Some? ==> r == Err(AlreadyInvited))
        && (invitee.None? && PendingFor(d, tripId, email).None? ==>
              var link := InviteLink(appUrl, d.nextId + 1);
              r == Ok(Pending("Invitation sent! Share this link with " + email + ": " + link, link))
              && State() == d.(invitations := d.invitations +
                                 [PendingInvitation(d.nextId, tripId, email, role, inviterId, d.nextId + 1, now + 7 * MsPerDay, now)],
                               activity := d.activity +
                                 [Activity(d.nextId + 2, tripId, inviterId, InvitedCollaborator, Some(CollaboratorEntity),
                                           None, Invitation(email, role, true), now)],
                               nextId := d.nextId + 3))
    {
      var invitee := UserByEmail(State(), email);
      if invitee.Some? {
        if CollaboratorRow(State(), tripId, invitee.value.id).Some? {
          return Err(AlreadyCollaborator);
        }
        assert invitee.value in users;
        AddAccepted(tripId, invitee.value.id, inviterId, email, role, now);
        return Ok(Added);
      }
      if PendingFor(State(), tripId, email).Some? {
        return Err(AlreadyInvited);
      }
      var token := AddPending(tripId, inviterId, email, role, now);
      var link := InviteLink(appUrl, token);
      r := Ok(Pending("Invitation sent! Share this link with " + email + ": " + link, link));
    }

    /** The accepted-collaborator branch of `inviteCollaborator`: the row and its activity entry. */
    method AddAccepted(tripId: Id, inviteeId: Id, inviterId: Id, email: string, role: InviteRole, now: Timestamp)
      requires Valid()
      requires tripId in TripIds(trips) && inviteeId in UserIds(users) && inviterId in UserIds(users)
      modifies this
      ensures Valid()
      ensures State() == old(State()).(
        collaborators := old(collaborators) +
          [Collaborator(old(nextId), tripId, inviteeId, role, Some(inviterId), now, Some(now), now, now)],
        activity := old(activity) +
          [Activity(old(nextId) + 1, tripId, inviterId, InvitedCollaborator, Some(CollaboratorEntity),
                    Some(inviteeId), Invitation(email, role, false), now)],
        nextId := old(nextId) + 2)
    {
      ghost var d := State();
      var row := Collaborator(nextId, tripId, inviteeId, role, Some(inviterId), now, Some(now), now, now);
      var entry := Activity(nextId + 1, tripId, inviterId, InvitedCollaborator, Some(CollaboratorEntity),
                            Some(inviteeId), Invitation(email, role, false), now);
      Integrity.InsertCollaboratorLogged(d, row, entry);
      collaborators := collaborators + [row];
      activity := activity + [entry];
      nextId := nextId + 2;
      ValidFrom(d.(collaborators := d.collaborators + [row], activity := d.activity + [entry], nextId := d.nextId + 2));
    }

    /**
     * The pending branch of `inviteCollaborator`: an invitation valid for
     * seven days and its activity entry; returns the invitation's token.
     */
    method AddPending(tripId: Id, inviterId: Id, email: string, role: InviteRole, now: Timestamp) returns (token: Id)
      requires Valid()
      requires tripId in TripIds(trips) && inviterId in UserIds(users)
      modifies this
      ensures Valid()
      ensures token == old(nextId) + 1
      ensures State() == old(State()).(
        invitations := old(invitations) +
          [PendingInvitation(old(nextId), tripId, email, role, inviterId, token, now + 7 * MsPerDay, now)],
        activity := old(activity) +
          [Activity(old(nextId) + 2, tripId, inviterId, InvitedCollaborator, Some(CollaboratorEntity),
                    None, Invitation(email, role, true), now)],
        nextId := old(nextId) + 3)
    {
      ghost var d := State();
      token := nextId + 1;
      var invitation := PendingInvitation(nextId, tripId, email, role, inviterId, token, now + 7 * MsPerDay, now);
      var entry := Activity(nextId + 2, tripId, inviterId, InvitedCollaborator, Some(CollaboratorEntity),
                            None, Invitation(email, role, true), now);
      Integrity.InsertInvitationLogged(d, invitation, entry);
      invitations := invitations + [invitation];
      activity := activity + [entry];
      nextId := nextId + 3;
      ValidFrom(d.(invitations := d.invitations + [invitation], activity := d.activity + [entry], nextId := d.nextId + 3));
    }

    /**
     * `removeCollaborator`: the trip's owner deletes the collaborator row
     * with the given id and logs a `removed_collaborator` entry. The delete
     * is by row id alone, whichever trip the row belongs to.
     */
    method RemoveCollaborator(caller: Option<string>, tripId: Id, collaboratorId: Id, now: Timestamp)
      returns (r: Outcome<()>)
      requires Valid()
      modifies this
      ensures Valid()
      ensures r.Err? ==> unchanged(this)
      ensures caller.None? ==> r == Err(Unauthenticated)
      ensures caller.Some? ==>
        var check := OwnerCheck(old(State()), caller.value, tripId);
        && (check.Err? ==> r == Err(check.failure))
        && (check.Ok? ==>
              r == Ok(())
              && State() == old(State()).(
                   collaborators := Filter(old(collaborators), (c: Collaborator) => c.id != collaboratorId),
                   activity := old(activity) + [Activity(old(nextId), tripId, check.value.id, RemovedCollaborator,
                                                         Some(CollaboratorEntity), Some(collaboratorId), NoMetadata, now)],
                   nextId := old(nextId) + 1))
    {
      if caller.None? {
        r := Err(Unauthenticated);
      } else {
        var check := OwnerCheck(State(), caller.value, tripId);
        if check.Err? {
          r := Err(check.failure);
        } else {
          assert TripById(State(), tripId).value in trips;
          var kept := Filter(collaborators, (c: Collaborator) => c.id != collaboratorId);
          var entry := Activity(nextId, tripId, check.value.id, RemovedCollaborator, Some(CollaboratorEntity),
                                Some(collaboratorId), NoMetadata, now);
          KeepCollaboratorRows(kept, entry);
          r := Ok(());
        }
      }
    }

    /**
     * `updateCollaboratorRole`: the trip's owner sets the role of the
     * collaborator row with the given id (whichever trip it belongs to) and
     * logs an `updated_collaborator_role` entry.
     */
    method UpdateCollaboratorRole(caller: Option<string>, tripId: Id, collaboratorId: Id, role: InviteRole, now: Timestamp)
      returns (r: Outcome<()>)
      requires Valid()
      modifies this
      ensures Valid()
      ensures r.Err? ==> unchanged(this)
      ensures caller.None? ==> r == Err(Unauthenticated)
      ensures caller.Some? ==>
        var check := Combined(OwnerCheck(old(State()), caller.value, tripId));
        && (check.Err? ==> r == Err(check.failure))
        && (check.Ok? ==>
              r == Ok(())
              && State() == old(State()).(
                   collaborators := SetRole(old(collaborators), collaboratorId, role, now),
                   activity := old(activity) + [Activity(old(nextId), tripId, check.value.id, UpdatedCollaboratorRole,
                                                         Some(CollaboratorEntity), Some(collaboratorId), RoleChange(role), now)],
                   nextId := old(nextId) + 1))
    {
      if caller.None? {
        return Err(Unauthenticated);
      }
      var check := Combined(OwnerCheck(State(), caller.value, tripId));
      if check.Err? {
        return Err(check.failure);
      }
      assert TripById(State(), tripId).value in trips;
      var entry := Activity(nextId, tripId, check.value.id, UpdatedCollaboratorRole, Some(CollaboratorEntity),
                            Some(collaboratorId), RoleChange(role), now);
      SetRoleRow(collaboratorId, role, now, entry);
      r := Ok(());
    }

    /** `cancelPendingInvitation`: any signed-in caller deletes the invitation with the given id. */
    method CancelPendingInvitation(caller: Option<string>, invitationId: Id)
      returns (r: Outcome<()>)
      requires Valid()
      modifies this
      ensures Valid()
      ensures r.Err? ==> unchanged(this)
      ensures caller.None? ==> r == Err(Unauthenticated)
      ensures caller.Some? ==>
        r == Ok(()) && State() == old(State()).(invitations := Filter(old(invitations), (v: PendingInvitation) => v.id != invitationId))
    {
      if caller.None? {
        return Err(Unauthenticated);
      }
      var kept := Filter(invitations, (v: PendingInvitation) => v.id != invitationId);
      KeepInvitationRows(kept);
      r := Ok(());
    }

    /**
     * `addExpense`: the trip's owner records an expense. The amount is
     * rounded to whole cents and a negative amount is stored as 0.
     */
    method AddExpense(caller: Option<string>, tripId: Option<Id>, itineraryItemId: Option<Id>, date: Option<Timestamp>,
                      amountCents: real, currency: string, category: string, note: Option<string>, receiptUrl: Option<string>)
      returns (r: Outcome<Expense>)
      requires Valid()
      modifies this
      ensures Valid()
      ensures r.Err? ==> unchanged(this)
      ensures caller.None? ==> r == Err(Unauthenticated)
      ensures caller.Some? && (tripId.None? || date.None? || currency == "" || category == "") ==> r == Err(MissingFields)
      ensures caller.Some? && tripId.Some? && date.Some? && currency != "" && category != "" ==>
        var check := OwnerCheck(old(State()), caller.value, tripId.value);
        && (check.Err? ==> r == Err(check.failure))
        && (check.Ok? ==>
              r == Ok(Expense(old(nextId), tripId.value, itineraryItemId, date.value, AtLeastZero(Round(amountCents)),
                              currency, category, note, receiptUrl))
              && State() == old(State()).(expenses := old(expenses) + [r.value], nextId := old(nextId) + 1))
    {
      if caller.None? {
        return Err(Unauthenticated);
      }
      if tripId.None? || date.None? || currency == "" || category == "" {
        return Err(MissingFields);
      }
      var check := OwnerCheck(State(), caller.value, tripId.value);
      if check.Err? {
        return Err(check.failure);
      }
      assert TripById(State(), tripId.value).value in trips;
      var expense := Expense(nextId, tripId.value, itineraryItemId, date.value, AtLeastZero(Round(amountCents)),
                             currency, category, note, receiptUrl);
      InsertExpenseRow(expense);
      r := Ok(expense);
    }

    /**
     * `deleteExpense`: the trip's owner deletes the expense with this id if it
     * belongs to this trip; an expense of another trip stays.
     */
    method DeleteExpense(caller: Option<string>, expenseId: Option<Id>, tripId: Option<Id>)
      returns (r: Outcome<()>)
      requires Valid()
      modifies this
      ensures Valid()
      ensures r.Err? ==> unchanged(this)
      ensures caller.None? ==> r == Err(Unauthenticated)
      ensures caller.Some? && (expenseId.None? || tripId.None?) ==> r == Err(MissingFields)
      ensures caller.Some? && expenseId.Some? && tripId.Some? ==>
        var check := OwnerCheck(old(State()), caller.value, tripId.value);
        && (check.Err? ==> r == Err(check.failure))
        && (check.Ok? ==>
              r == Ok(())
              && State() == old(State()).(expenses := Filter(old(expenses),
                   (e: Expense) => !(e.id == expenseId.value && e.tripId == tripId.value))))
    {
      if caller.None? {
        return Err(Unauthenticated);
      }
      if expenseId.None? || tripId.None? {
        return Err(MissingFields);
      }
      var check := OwnerCheck(State(), caller.value, tripId.value);
      if check.Err? {
        return Err(check.failure);
      }
      var kept := Filter(expenses, (e: Expense) => !(e.id == expenseId.value && e.tripId == tripId.value));
      KeepExpenseRows(kept);
      r := Ok(());
    }

    /**
     * `setCurrencyRate`: the trip's owner sets the rate of a currency. The
     * trip's row for that currency is updated if there is one, else a row is
     * inserted. The rate itself is not checked.
     */
    method SetCurrencyRate(caller: Option<string>, tripId: Option<Id>, currency: string, rateToBase: real)
      returns (r: Outcome<()>)
      requires Valid()
      modifies this
      ensures Valid()
      ensures r.Err? ==> unchanged(this)
      ensures caller.None? ==> r == Err(Unauthenticated)
      ensures caller.Some? && (tripId.None? || currency == "") ==> r == Err(MissingFields)
      ensures caller.Some? && tripId.Some? && currency != "" ==>
        var check := OwnerCheck(old(State()), caller.value, tripId.value);
        && (check.Err? ==> r == Err(check.failure))
        && (check.Ok? && RateRow(old(State()), tripId.value, currency).Some? ==>
              r == Ok(()) && State() == old(State()).(rates := SetRate(old(rates), tripId.value, currency, rateToBase)))
        && (check.Ok? && RateRow(old(State()), tripId.value, currency).None? ==>
              r == Ok(())
              && State() == old(State()).(rates := old(rates) + [CurrencyRate(old(nextId), tripId.value, currency, rateToBase)],
                                          nextId := old(nextId) + 1))
    {
      if caller.None? {
        return Err(Unauthenticated);
      }
      if tripId.None? || currency == "" {
        return Err(MissingFields);
      }
      var check := OwnerCheck(State(), caller.value, tripId.value);
      if check.Err? {
        return Err(check.failure);
      }
      assert TripById(State(), tripId.value).value in trips;
      UpsertRate(tripId.value, currency, rateToBase);
      r := Ok(());
    }

    /**
     * `setDailyBudget`: the trip's owner sets the budget of a day. The amount
     * must be a finite, non-negative number; the date is moved to the start
     * of its day, and that day's row is updated if there is one, else a row
     * is inserted. The currency defaults to "USD".
     */
    method SetDailyBudget(caller: Option<string>, tripId: Option<Id>, date: Option<Timestamp>, amountCents: JsNumber,
                          currency: string := "USD")
      returns (r: Outcome<()>)
      requires Valid()
      modifies this
      ensures Valid()
      ensures r.Err? ==> unchanged(this)
      ensures caller.None? ==> r == Err(Unauthenticated)
      ensures caller.Some? && (tripId.None? || date.None?) ==> r == Err(MissingFields)
      ensures caller.Some? && tripId.Some? && date.Some? && (!IsFinite(amountCents) || amountCents.value < 0.0) ==>
        r == Err(InvalidAmount)
      ensures caller.Some? && tripId.Some? && date.Some? && IsFinite(amountCents) && amountCents.value >= 0.0 ==>
        var check := Combined(OwnerCheck(old(State()), caller.value, tripId.value));
        var day := StartOfDay(date.value);
        var existing := BudgetRow(old(State()), tripId.value, day);
        && (check.Err? ==> r == Err(check.failure))
        && (check.Ok? && existing.Some? ==>
              r == Ok(())
              && State() == old(State()).(budgets := SetBudget(old(budgets), existing.value.id, amountCents.value, currency)))
        && (check.Ok? && existing.None? ==>
              r == Ok(())
              && State() == old(State()).(budgets := old(budgets) + [DailyBudget(old(nextId), tripId.value, day, amountCents.value, currency)],
                                          nextId := old(nextId) + 1))
    {
      if caller.None? {
        return Err(Unauthenticated);
      }
      if tripId.None? || date.None? {
        return Err(MissingFields);
      }
      if !IsFinite(amountCents) || amountCents.value < 0.0 {
        return Err(InvalidAmount);
      }
      var check := Combined(OwnerCheck(State(), caller.value, tripId.value));
      if check.Err? {
        return Err(check.failure);
      }
      assert TripById(State(), tripId.value).value in trips;
      var day := StartOfDay(date.value);
      StartOfDayCanonical(day, date.value);
      UpsertBudget(tripId.value, day, amountCents.value, currency);
      r := Ok(());
    }

    /**
     * `updatePlaceCost`: the trip's owner sets or clears the cost of one of
     * the trip's places. A cost must be finite and non-negative; clearing
     * the cost clears its currency, which otherwise defaults to "USD".
     */
    method UpdatePlaceCost(caller: Option<string>, tripId: Option<Id>, placeId: Option<Id>, costCents: Option<JsNumber>,
                           currency: string := "USD")
      returns (r: Outcome<()>)
      requires Valid()
      modifies this
      ensures Valid()
      ensures r.Err? ==> unchanged(this)
      ensures caller.None? ==> r == Err(Unauthenticated)
      ensures caller.Some? && (tripId.None? || placeId.None?) ==> r == Err(MissingFields)
      ensures var invalid := costCents.Some? && (!IsFinite(costCents.value) || costCents.value.value < 0.0);
        caller.Some? && tripId.Some? && placeId.Some? && invalid ==> r == Err(InvalidCost)
      ensures caller.Some? && tripId.Some? && placeId.Some?
              && (costCents.None? || (IsFinite(costCents.value) && costCents.value.value >= 0.0)) ==>
        var check := Combined(OwnerCheck(old(State()), caller.value, tripId.value));
        var item := ItemById(old(State()), placeId.value);
        && (check.Err? ==> r == Err(check.failure))
        && (check.Ok? && (item.None? || item.value.tripId != tripId.value) ==> r == Err(PlaceNotFound))
        && (check.Ok? && item.Some? && item.value.tripId == tripId.value ==>
              r == Ok(())
              && State() == old(State()).(items := SetCost(old(items), placeId.value,
                   if costCents.None? then None else Some(costCents.value.value), currency)))
    {
      if caller.None? {
        return Err(Unauthenticated);
      }
      if tripId.None? || placeId.None? {
        return Err(MissingFields);
      }
      if costCents.Some? && (!IsFinite(costCents.value) || costCents.value.value < 0.0) {
        return Err(InvalidCost);
      }
      var check := Combined(OwnerCheck(State(), caller.value, tripId.value));
      if check.Err? {
        return Err(check.failure);
      }
      var item := ItemById(State(), placeId.value);
      if item.None? || item.value.tripId != tripId.value {
        return Err(PlaceNotFound);
      }
      SetCostRow(placeId.value, if costCents.None? then None else Some(costCents.value.value), currency);
      r := Ok(());
    }



    /**
     * `updateTrip`: the trip's owner changes the destination and dates that
     * are given. Setting both dates with the end before the start fails.
     * `updated_at` is always set, so there is always an update, and one
     * `updated` entry with the arguments as given is logged.
     */
    method UpdateTrip(caller: Option<string>, tripId: Option<Id>, destination: Option<string>,
                      startDate: DateArg, endDate: DateArg, parseDate: string -> Timestamp, now: Timestamp)
      returns (r: Outcome<()>)
      requires Valid()
      modifies this
      ensures Valid()
      ensures r.Err? ==> unchanged(this)
      ensures caller.None? ==> r == Err(Unauthenticated)
      ensures caller.Some? && tripId.None? ==> r == Err(MissingFields)
      ensures caller.Some? && tripId.Some? ==>
        var check := OwnedTrip(old(State()), caller.value, tripId.value);
        var start := DateChange(startDate, parseDate);
        var end := DateChange(endDate, parseDate);
        && (check.Err? ==> r == Err(check.failure))
        && (check.Ok? && EndsBeforeStart(start, end) ==> r == Err(EndBeforeStart))
        && (check.Ok? && !EndsBeforeStart(start, end) ==>
              r == Ok(())
              && State() == old(State()).(
                   trips := EditTrip(old(trips), tripId.value, NewDestination(destination), start, end, now),
                   activity := old(activity) + [Activity(old(nextId), tripId.value, check.value.userId, UpdatedTrip, Some(TripEntity),
                                                         Some(tripId.value), TripChanges(destination, startDate, endDate), now)],
                   nextId := old(nextId) + 1))
    {
      if caller.None? {
        return Err(Unauthenticated);
      }
      if tripId.None? {
        return Err(MissingFields);
      }
      var check := OwnedTrip(State(), caller.value, tripId.value);
      if check.Err? {
        return Err(check.failure);
      }
      var start := DateChange(startDate, parseDate);
      var end := DateChange(endDate, parseDate);
      if EndsBeforeStart(start, end) {
        return Err(EndBeforeStart);
      }
      assert check.value in trips && UserByClerkId(State(), caller.value).value in users;
      var entry := Activity(nextId, tripId.value, check.value.userId, UpdatedTrip, Some(TripEntity),
                            Some(tripId.value), TripChanges(destination, startDate, endDate), now);
      EditTripRow(tripId.value, NewDestination(destination), start, end, now, entry);
      r := Ok(());
    }

    /**
     * `toggleShareTrip`: the trip's owner makes the trip public or private.
     * Making it public keeps the share id it already has and draws a fresh
     * one only when it has none; making it private leaves the share id.
     * The link is reported only for a public trip.
     */
    method ToggleShareTrip(caller: Option<string>, tripId: Option<Id>, makePublic: bool, now: Timestamp)
      returns (r: Outcome<ShareState>)
      requires Valid()
      modifies this
      ensures Valid()
      ensures r.Err? ==> unchanged(this)
      ensures caller.None? ==> r == Err(Unauthenticated)
      ensures caller.Some? && tripId.None? ==> r == Err(MissingFields)
      ensures caller.Some? && tripId.Some? ==>
        var check := OwnedTrip(old(State()), caller.value, tripId.value);
        && (check.Err? ==> r == Err(check.failure))
        && (check.Ok? && makePublic && check.value.shareId.Some? ==>
              var id := check.value.shareId.value;
              r == Ok(ShareState(true, Some(id), Some(ShareUrl(id))))
              && State() == old(State()).(trips := ShareTrip(old(trips), tripId.value, true, SetTo(id), now)))
        && (check.Ok? && makePublic && check.value.shareId.None? ==>
              r == Ok(ShareState(true, Some(old(nextId)), Some(ShareUrl(old(nextId)))))
              && State() == old(State()).(trips := ShareTrip(old(trips), tripId.value, true, SetTo(old(nextId)), now),
                                          nextId := old(nextId) + 1))
        && (check.Ok? && !makePublic ==>
              r == Ok(ShareState(false, check.value.shareId, None))
              && State() == old(State()).(trips := ShareTrip(old(trips), tripId.value, false, Keep, now)))
    {
      if caller.None? {
        return Err(Unauthenticated);
      }
      if tripId.None? {
        return Err(MissingFields);
      }
      var check := OwnedTrip(State(), caller.value, tripId.value);
      if check.Err? {
        return Err(check.failure);
      }
      OwnedTripAgreesWithOwnerCheck(State(), caller.value, tripId.value);
      var newShareId := check.value.shareId;
      if makePublic {
        if newShareId.None? {
          newShareId := Some(nextId);
        }
        ShareTripRow(tripId.value, true, SetTo(newShareId.value), now);
        r := Ok(ShareState(true, newShareId, Some(ShareUrl(newShareId.value))));
      } else {
        ShareTripRow(tripId.value, false, Keep, now);
        r := Ok(ShareState(false, newShareId, None));
      }
    }

    /**
     * `deleteTrip`: the trip's owner deletes the trip; the database's
     * cascades delete every row that belongs to it.
     */
    method DeleteTrip(caller: Option<string>, tripId: Option<Id>)
      returns (r: Outcome<()>)
      requires Valid()
      modifies this
      ensures Valid()
      ensures r.Err? ==> unchanged(this)
      ensures caller.None? ==> r == Err(Unauthenticated)
      ensures caller.Some? && tripId.None? ==> r == Err(MissingFields)
      ensures caller.Some? && tripId.Some? ==>
        var check := OwnerCheck(old(State()), caller.value, tripId.value);
        && (check.Err? ==> r == Err(check.failure))
        && (check.Ok? ==>
              r == Ok(()) && State() == DeleteTripCascade(old(State()), tripId.value)
              && TripById(State(), tripId.value).None?)
    {
      if caller.None? {
        return Err(Unauthenticated);
      }
      if tripId.None? {
        return Err(MissingFields);
      }
      var check := OwnerCheck(State(), caller.value, tripId.value);
      if check.Err? {
        return Err(check.failure);
      }
      DeleteTripRows(tripId.value);
      r := Ok(());
    }

    // The writes. Each keeps the database consistent and changes exactly
    // the rows it names; the actions above call them once their guards pass.

    method InsertUserRow(user: User)
      requires Valid()
      requires user.id == nextId && UserByClerkId(State(), user.clerkId).None?
      modifies this
      ensures Valid()
      ensures State() == old(State()).(users := old(users) + [user], nextId := old(nextId) + 1)
    {
      ghost var d := State();
      Integrity.InsertUser(d, user);
      users := users + [user];
      nextId := nextId + 1;
      ValidFrom(d.(users := d.users + [user], nextId := d.nextId + 1));
    }

    method InsertTripRow(trip: Trip)
      requires Valid()
      requires trip.id == nextId && trip.userId in UserIds(users) && trip.shareId.None?
      modifies this
      ensures Valid()
      ensures State() == old(State()).(trips := old(trips) + [trip], nextId := old(nextId) + 1)
    {
      ghost var d := State();
      Integrity.InsertTrip(d, trip);
      trips := trips + [trip];
      nextId := nextId + 1;
      ValidFrom(d.(trips := d.trips + [trip], nextId := d.nextId + 1));
    }

    /** A delete from the itinerary table: the rows in `kept` are the ones that stay. */
    method KeepItemRows(kept: seq<ItineraryItem>)
      requires Valid() && forall x :: x in kept ==> x in items
      modifies this
      ensures Valid()
      ensures State() == old(State()).(items := kept)
    {
      ghost var d := State();
      Integrity.KeepItems(d, kept);
      items := kept;
      ValidFrom(d.(items := kept));
    }

    /** A delete from the collaborator table and the activity entry that records it. */
    method KeepCollaboratorRows(kept: seq<Collaborator>, entry: Activity)
      requires Valid() && forall c :: c in kept ==> c in collaborators
      requires entry.id == nextId && entry.tripId in TripIds(trips) && entry.userId in UserIds(users)
      modifies this
      ensures Valid()
      ensures State() == old(State()).(collaborators := kept, activity := old(activity) + [entry], nextId := old(nextId) + 1)
    {
      ghost var d := State();
      Integrity.KeepCollaboratorsLogged(d, kept, entry);
      collaborators := kept;
      activity := activity + [entry];
      nextId := nextId + 1;
      ValidFrom(d.(collaborators := kept, activity := d.activity + [entry], nextId := d.nextId + 1));
    }

    /** A role update and the activity entry that records it. */
    method SetRoleRow(collaboratorId: Id, role: InviteRole, now: Timestamp, entry: Activity)
      requires Valid()
      requires entry.id == nextId && entry.tripId in TripIds(trips) && entry.userId in UserIds(users)
      modifies this
      ensures Valid()
      ensures State() == old(State()).(collaborators := SetRole(old(collaborators), collaboratorId, role, now),
                                       activity := old(activity) + [entry], nextId := old(nextId) + 1)
    {
      ghost var d := State();
      Integrity.SetRoleLogged(d, collaboratorId, role, now, entry);
      collaborators := SetRole(collaborators, collaboratorId, role, now);
      activity := activity + [entry];
      nextId := nextId + 1;
      ValidFrom(d.(collaborators := SetRole(d.collaborators, collaboratorId, role, now),
                   activity := d.activity + [entry], nextId := d.nextId + 1));
    }

    /** A delete from the invitation table: the rows in `kept` are the ones that stay. */
    method KeepInvitationRows(kept: seq<PendingInvitation>)
      requires Valid() && forall v :: v in kept ==> v in invitations
      modifies this
      ensures Valid()
      ensures State() == old(State()).(invitations := kept)
    {
      ghost var d := State();
      Integrity.KeepInvitations(d, kept);
      invitations := kept;
      ValidFrom(d.(invitations := kept));
    }

    method InsertExpenseRow(expense: Expense)
      requires Valid()
      requires expense.id == nextId && expense.tripId in TripIds(trips)
      modifies this
      ensures Valid()
      ensures State() == old(State()).(expenses := old(expenses) + [expense], nextId := old(nextId) + 1)
    {
      ghost var d := State();
      Integrity.InsertExpense(d, expense);
      expenses := expenses + [expense];
      nextId := nextId + 1;
      ValidFrom(d.(expenses := d.expenses + [expense], nextId := d.nextId + 1));
    }

    /** A delete from the expense table: the rows in `kept` are the ones that stay. */
    method KeepExpenseRows(kept: seq<Expense>)
      requires Valid() && forall e :: e in kept ==> e in expenses
      modifies this
      ensures Valid()
      ensures State() == old(State()).(expenses := kept)
    {
      ghost var d := State();
      Integrity.KeepExpenses(d, kept);
      expenses := kept;
      ValidFrom(d.(expenses := kept));
    }

    /** The rate upsert: update the trip's row for the currency if there is one, else insert one. */
    method UpsertRate(tripId: Id, currency: string, rateToBase: real)
      requires Valid() && tripId in TripIds(trips)
      modifies this
      ensures Valid()
      ensures RateRow(old(State()), tripId, currency).Some? ==>
        State() == old(State()).(rates := SetRate(old(rates), tripId, currency, rateToBase))
      ensures RateRow(old(State()), tripId, currency).None? ==>
        State() == old(State()).(rates := old(rates) + [CurrencyRate(old(nextId), tripId, currency, rateToBase)],
                                 nextId := old(nextId) + 1)
    {
      ghost var d := State();
      if RateRow(State(), tripId, currency).Some? {
        Integrity.SetRateOk(d, tripId, currency, rateToBase);
        rates := SetRate(rates, tripId, currency, rateToBase);
        ValidFrom(d.(rates := SetRate(d.rates, tripId, currency, rateToBase)));
      } else {
        var row := CurrencyRate(nextId, tripId, currency, rateToBase);
        Integrity.InsertRate(d, row);
        rates := rates + [row];
        nextId := nextId + 1;
        ValidFrom(d.(rates := d.rates + [row], nextId := d.nextId + 1));
      }
    }

    /** The budget upsert: update the trip's row for the day if there is one, else insert one. */
    method UpsertBudget(tripId: Id, day: Timestamp, amountCents: real, currency: string)
      requires Valid() && tripId in TripIds(trips) && day == StartOfDay(day)
      modifies this
      ensures Valid()
      ensures BudgetRow(old(State()), tripId, day).Some? ==>
        State() == old(State()).(budgets := SetBudget(old(budgets), BudgetRow(old(State()), tripId, day).value.id,
                                                      amountCents, currency))
      ensures BudgetRow(old(State()), tripId, day).None? ==>
        State() == old(State()).(budgets := old(budgets) + [DailyBudget(old(nextId), tripId, day, amountCents, currency)],
                                 nextId := old(nextId) + 1)
    {
      ghost var d := State();
      var existing := BudgetRow(State(), tripId, day);
      if existing.Some? {
        Integrity.SetBudgetOk(d, existing.value.id, amountCents, currency);
        budgets := SetBudget(budgets, existing.value.id, amountCents, currency);
        ValidFrom(d.(budgets := SetBudget(d.budgets, existing.value.id, amountCents, currency)));
      } else {
        var row := DailyBudget(nextId, tripId, day, amountCents, currency);
        Integrity.InsertBudget(d, row);
        budgets := budgets + [row];
        nextId := nextId + 1;
        ValidFrom(d.(budgets := d.budgets + [row], nextId := d.nextId + 1));
      }
    }

    method SetCostRow(placeId: Id, cost: Option<real>, currency: string)
      requires Valid()
      modifies this
      ensures Valid()
      ensures State() == old(State()).(items := SetCost(old(items), placeId, cost, currency))
    {
      ghost var d := State();
      Integrity.SetCostOk(d, placeId, cost, currency);
      items := SetCost(items, placeId, cost, currency);
      ValidFrom(d.(items := SetCost(d.items, placeId, cost, currency)));
    }
    /** Inserts an itinerary item and the activity entry that records it. */
    method InsertItemRow(item: ItineraryItem, entry: Activity)
      requires Valid()
      requires item.id == nextId && item.tripId in TripIds(trips)
      requires entry.id == nextId + 1 && entry.tripId in TripIds(trips) && entry.userId in UserIds(users)
      modifies this
      ensures Valid()
      ensures State() == old(State()).(items := old(items) + [item], activity := old(activity) + [entry], nextId := old(nextId) + 2)
    {
      ghost var d := State();
      Integrity.InsertItemLogged(d, item, entry);
      items := items + [item];
      activity := activity + [entry];
      nextId := nextId + 2;
      ValidFrom(d.(items := d.items + [item], activity := d.activity + [entry], nextId := d.nextId + 2));
    }
    /** The trip update and the activity entry that records it. */
    method EditTripRow(tripId: Id, destination: Change<string>, start: Change<Option<Timestamp>>,
                       end: Change<Option<Timestamp>>, now: Timestamp, entry: Activity)
      requires Valid()
      requires entry.id == nextId && entry.tripId in TripIds(trips) && entry.userId in UserIds(users)
      modifies this
      ensures Valid()
      ensures State() == old(State()).(trips := EditTrip(old(trips), tripId, destination, start, end, now),
                                       activity := old(activity) + [entry], nextId := old(nextId) + 1)
    {
      ghost var d := State();
      Integrity.EditTripLogged(d, tripId, destination, start, end, now, entry);
      trips := EditTrip(trips, tripId, destination, start, end, now);
      activity := activity + [entry];
      nextId := nextId + 1;
      ValidFrom(d.(trips := EditTrip(d.trips, tripId, destination, start, end, now),
                   activity := d.activity + [entry], nextId := d.nextId + 1));
    }

    /**
     * The sharing update. A share id it sets is either the one the trip
     * already has, or the counter, which then advances.
     */
    method ShareTripRow(tripId: Id, isPublic: bool, shareId: Change<Id>, now: Timestamp)
      requires Valid()
      requires shareId.SetTo? ==>
        (TripById(State(), tripId).Some? && TripById(State(), tripId).value.shareId == Some(shareId.value))
        || shareId.value == nextId
      modifies this
      ensures Valid()
      ensures State() == old(State()).(trips := ShareTrip(old(trips), tripId, isPublic, shareId, now),
                                       nextId := if shareId.SetTo? && shareId.value == old(nextId) then old(nextId) + 1 else old(nextId))
    {
      ghost var d := State();
      var next := nextId;
      if shareId.SetTo? && shareId.value == nextId {
        next := nextId + 1;
      } else if shareId.SetTo? {
        assert TripById(d, tripId).value in d.trips;
      }
      Integrity.ShareTripOk(d, tripId, isPublic, shareId, next, now);
      trips := ShareTrip(trips, tripId, isPublic, shareId, now);
      nextId := next;
      ValidFrom(d.(trips := ShareTrip(d.trips, tripId, isPublic, shareId, now), nextId := next));
    }

    /** Replaces every table at once. */
    method Load(r: Db)
      requires Consistent(r) && OnlyInvitedRoles(r)
      modifies this
      ensures State() == r && Valid()
    {
      users, trips, items, collaborators, invitations := r.users, r.trips, r.items, r.collaborators, r.invitations;
      activity, presence, expenses, rates, budgets := r.activity, r.presence, r.expenses, r.rates, r.budgets;
      nextId := r.nextId;
      ValidFrom(r);
    }

    /** The trip delete with its cascades. */
    method DeleteTripRows(tripId: Id)
      requires Valid()
      modifies this
      ensures Valid()
      ensures State() == DeleteTripCascade(old(State()), tripId)
      ensures TripById(State(), tripId).None?
    {
      DeleteTripCascadeConsistent(State(), tripId);
      Load(DeleteTripCascade(State(), tripId));
    }
  }
}
