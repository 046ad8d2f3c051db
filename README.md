# trip-script, modelled in Dafny

trip-script is a collaborative trip planner built on Next.js. A signed-in
user creates trips, fills each day of the itinerary with places, invites
other people as editors or viewers, and records expenses and daily budgets.
Server actions guard and write the Postgres tables (users, trips, itinerary
items, collaborators, pending invitations, activity, presence, expenses,
currency rates, daily budgets). Client components show a trip's day, its
collaborators, who is looking at it right now and its activity feed.

This project models that core:

- `Schema`, `Database`, `Updates` and `Integrity` hold the tables as a
  value. They define the lookups and guards the actions share, and prove
  that every kind of write keeps the schema's keys and references intact,
  including the cascade that deleting a trip triggers (for the expense,
  rate and budget tables that cascade is assumed, see "Left out").
- `Store.TripStore` is a class whose fields are the tables. It has one
  method per server action, plus the Clerk webhook that creates user rows.
  Each method states its error cases in guard order, states the database
  afterwards, and keeps the `Valid()` invariant.
- `Itinerary` holds the ordering rules of a day's places: a new place goes
  last, and a reorder numbers the places in the order they were sent.
- The client components each have a module: `ItineraryDay`, `DayExpenses`,
  `PresenceList`, `People`, `ActiveUsers`, `CollaboratorsList`,
  `CollaborationPanel`, `ActivityFeed` and `TripCard`.
- `Common`, `Text` and `Numbers` model the JavaScript operations these
  modules rely on: `find`, `findIndex`, `filter`, `arrayMove`, `trim`,
  `toUpperCase`, `Math.round` and `Math.ceil`.

Row ids, invitation tokens and share ids come from a counter, not from
random UUIDs. Times are integers in milliseconds. Locale formatting and
date parsing are function parameters.

## Model

| member | source | states |
|---|---|---|
| Common.FindIndex | src/components/ItineraryDate.tsx:305-306 | `findIndex` returns a position whose element satisfies the predicate and no earlier position does, or nothing when no element does |
| Common.FindIndexIsFirst | src/components/ItineraryDate.tsx:305-306 | the first satisfying position is exactly what `findIndex` returns |
| Common.First | src/app/actions/collaborationActions.ts:356-360 | the first row of a `where ... limit(1)` query satisfies the condition and is in the table, or no row satisfies it |
| Common.FirstAtFindIndex | src/components/CollaborationPanel.tsx:117 | `find` returns the element at the index `findIndex` returns |
| Common.FirstOfUnique | src/db/schema.ts:6 | on a unique column, the first matching row is the only matching row |
| Common.Filter | src/hooks/useRealtimeCollaboration.ts:39 | `filter` keeps exactly the elements that satisfy the predicate and is no longer than its input |
| Common.FilterAppend | src/hooks/useRealtimeCollaboration.ts:38-44 | filtering distributes over concatenation, so kept elements keep their relative order |
| Common.FilterKeepsAll | src/components/ItineraryDate.tsx:173-175 | a filter that every element passes returns the whole list |
| Common.FilterDropsOne | src/components/ItineraryDate.tsx:173-175 | a filter that drops exactly one position removes that element and keeps the others in order |
| Common.Count | src/hooks/useRealtimeCollaboration.ts:38-44 | the count is at most the length, and 0 exactly when no element matches |
| Common.FilterLength | src/hooks/useRealtimeCollaboration.ts:39 | the filtered list has exactly as many elements as satisfy the predicate |
| Common.Move | src/components/ItineraryDate.tsx:307 | `arrayMove` keeps the length and puts the moved element at the target index |
| Common.MovePermutes | src/components/ItineraryDate.tsx:307 | `arrayMove` is a permutation: the multiset of elements is unchanged |
| Text.TrimStartSpec | src/app/actions/addPlaceToItinerary.ts:48-53 | `trimStart` removes a blank prefix and leaves a suffix that does not start with whitespace |
| Text.TrimEndSpec | src/app/actions/addPlaceToItinerary.ts:48-53 | `trimEnd` removes a blank suffix and leaves a prefix that does not end with whitespace |
| Text.TrimSpec | src/app/actions/addPlaceToItinerary.ts:106-107 | `trim` removes a blank prefix and a blank suffix and leaves no whitespace at either end |
| Text.TrimEmptyIffBlank | src/app/actions/addPlaceToItinerary.ts:48-53 | `!s.trim()` holds exactly when the string is empty or all whitespace |
| Text.BlankTrimsAway | src/components/ItineraryDate.tsx:92 | a blank string trims to nothing |
| Text.TrimIdempotent | src/components/ItineraryDate.tsx:193 | trimming twice equals trimming once |
| Text.ToUpper | src/components/ActiveUsers.tsx:18-26 | `toUpperCase` keeps the length, maps each lower-case ASCII letter to its capital and leaves every other character alone |
| Text.ToUpperIdempotent | src/components/DayExpenses.tsx:60 | upper-casing an upper-cased code changes nothing |
| Text.ToUpperKeepsTrim | src/components/DayExpenses.tsx:134 | `trim` and `toUpperCase` commute |
| Text.TrimStartUpper | src/components/DayExpenses.tsx:134 | `trimStart` and `toUpperCase` commute |
| Text.TrimEndUpper | src/components/DayExpenses.tsx:134 | `trimEnd` and `toUpperCase` commute |
| Text.Take | src/components/ActiveUsers.tsx:23-25 | `substring(0, n)` is a prefix of length min(n, length) |
| Text.FullName | src/components/ActiveUsers.tsx:29 | the joined name is empty exactly when both parts are falsy, starts with a set first name, ends with a set last name, and is "first last" when both are set |
| Text.DigitChar | src/components/CollaborationPanel.tsx:92 | a digit below ten renders as a digit character that reads back as it |
| Text.NatToString | src/components/CollaborationPanel.tsx:92 | a rendered count is a non-empty run of digits, with a leading zero only for 0 |
| Text.DecimalRoundTrip | src/app/actions/collaborationActions.ts:165 | parsing the rendered number gives the number back |
| Text.NatToStringInjective | src/app/actions/collaborationActions.ts:139 | different numbers render differently, so a rendered token is unique |
| Numbers.Round | src/components/DayExpenses.tsx:62 | `Math.round` gives the integer within one half of the value, halves rounded up |
| Numbers.RoundProperties | src/app/actions/expenses.ts:40 | `Math.round` fixes whole numbers and is monotone |
| Numbers.AtLeastZero | src/app/actions/expenses.ts:40 | `Math.max(0, n)` is n when n is non-negative and 0 otherwise |
| Numbers.CeilDiv | src/components/TripCard.tsx:52 | `Math.ceil(a / b)` is the least q with a <= q * b |
| Schema.StartOfDay | src/app/actions/setDailyBudget.ts:22-23 | `setHours(0, 0, 0, 0)` gives the latest midnight not after the time, on the same day |
| Schema.StartOfDayCanonical | src/app/actions/setDailyBudget.ts:22-28 | start of day is idempotent, and two times share a start of day exactly when they share a calendar day |
| Schema.ParseRole | src/db/schema.ts:79 | a role column reads as a role exactly when it holds one of "owner", "editor", "viewer" |
| Schema.RoleNameRoundTrip | src/db/schema.ts:79 | every role is stored and read back unchanged |
| Database.OwnerCheck | src/app/actions/deleteTripAction.ts:36-67 | the user lookup by Clerk id, then the trip lookup, then the owner test: success returns the caller's row for a trip the caller owns; "user not found" exactly when the Clerk id has no row; "trip not found" exactly when the user exists and the trip does not |
| Database.OwnerCheckIffOwner | src/app/actions/deletePlaceFromItinerary.ts:46-75 | in a consistent database the guard passes exactly when the caller's user row owns the trip |
| Database.Combined | src/app/actions/setDailyBudget.ts:18-19 | a missing trip and a foreign trip give one shared error; other outcomes pass unchanged |
| Database.OwnedTrip | src/app/actions/updateTrip.ts:36-45 | the lookup by id and owner in one query returns the caller's own trip with that id, "user not found" exactly when the caller has no row, and otherwise one shared "not found or unauthorized" error |
| Database.OwnedTripAgreesWithOwnerCheck | src/app/actions/toggleShare.ts:31-35 | the one-query guard and the three-step guard accept the same callers and find the same trip |
| Database.ViewersCannotInvite | src/app/actions/collaborationActions.ts:54-59 | a non-owner who is a viewer or has no collaborator row cannot invite; an editor can |
| Database.Access | src/app/actions/collaborationActions.ts:350-394 | `checkUserAccess` denies signed-out callers and callers with no user row; any non-owner role it returns is the role of the caller's own first collaborator row for the trip |
| Database.AccessIffOwnerOrCollaborator | src/app/actions/collaborationActions.ts:366-393 | in a consistent database, access is "owner" exactly for the trip's owner, and some access is granted exactly to the owner and the trip's collaborators |
| Database.DeleteTripCascade | src/db/schema.ts:49 | deleting a trip removes exactly the trip and the rows of every table that reference it (for expenses, rates and budgets an assumed reference, see "Left out"); users and other trips' rows stay |
| Database.DeleteTripCascadeTripIds | src/app/actions/deleteTripAction.ts:69 | after the delete the set of trip ids is the old set without the deleted id |
| Database.DeleteTripCascadeConsistent | src/db/schema.ts:77 | the cascade keeps every key and reference intact and leaves no row of the deleted trip |
| Integrity.InsertUser | src/app/api/webhooks/clerk/route.ts:58-63 | a user row with a fresh id and an unused Clerk id keeps the database consistent |
| Integrity.InsertTrip | src/app/actions/tripActions.ts:37-42 | a trip row with a fresh id and an existing owner keeps the database consistent |
| Integrity.InsertItemLogged | src/app/actions/addPlaceToItinerary.ts:102-124 | an itinerary item and its activity entry, with consecutive fresh ids, keep the database consistent |
| Integrity.InsertCollaboratorLogged | src/app/actions/collaborationActions.ts:87-103 | a collaborator row and its activity entry keep the database consistent and hold only invited roles |
| Integrity.InsertInvitationLogged | src/app/actions/collaborationActions.ts:144-160 | a pending invitation with a fresh id and token, plus its activity entry, keeps the database consistent |
| Integrity.InsertExpense | src/app/actions/expenses.ts:36-45 | an expense row with a fresh id for an existing trip keeps the database consistent |
| Integrity.InsertRate | src/app/actions/expenses.ts:79-87 | a rate row for a currency the trip has no rate for keeps the (trip, currency) pair unique |
| Integrity.InsertBudget | src/app/actions/setDailyBudget.ts:33 | a budget row at midnight of a day the trip has no budget for keeps the (trip, day) pair unique |
| Integrity.ReplaceItems | src/app/actions/updatePlaceCost.ts:24-27 | changing items while keeping their ids and trips keeps the database consistent |
| Integrity.RenumberOk | src/app/actions/updateItineraryOrder.ts:51-54 | the reorder changes only the `order` column and keeps the database consistent |
| Integrity.KeepItems | src/app/actions/deletePlaceFromItinerary.ts:92 | deleting itinerary items keeps the database consistent |
| Integrity.KeepInvitations | src/app/actions/collaborationActions.ts:328 | deleting pending invitations keeps the database consistent |
| Integrity.KeepExpenses | src/app/actions/expenses.ts:62 | deleting expenses keeps the database consistent |
| Integrity.SetRoleRows | src/app/actions/collaborationActions.ts:263-266 | a role update keeps collaborator keys and references, and hands out no owner role |
| Integrity.SetCostOk | src/app/actions/updatePlaceCost.ts:24-27 | a cost update keeps the database consistent |
| Integrity.SetRateOk | src/app/actions/expenses.ts:79-84 | a rate update keeps the (trip, currency) key unique |
| Integrity.SetBudgetOk | src/app/actions/setDailyBudget.ts:31 | a budget update keeps the (trip, day) key and the midnight date |
| Integrity.EditTripLogged | src/app/actions/updateTrip.ts:77-87 | a trip edit and its activity entry keep the database consistent |
| Integrity.ShareTripOk | src/app/actions/toggleShare.ts:37-44 | sharing keeps share ids unique: an existing one is kept, and at most one fresh one is drawn |
| Integrity.KeepCollaboratorsLogged | src/app/actions/collaborationActions.ts:208-219 | removing collaborator rows and logging the removal keeps the database consistent |
| Integrity.SetRoleLogged | src/app/actions/collaborationActions.ts:263-276 | a role change and its activity entry keep the database consistent |
| Itinerary.SameDay | src/app/actions/addPlaceToItinerary.ts:89-100 | the day's items are exactly the trip's items whose date falls on that calendar day |
| Itinerary.MaxOrder | src/app/actions/addPlaceToItinerary.ts:89-100 | the reduce gives 0 or the largest order present, and no item's order exceeds it |
| Itinerary.NextOrder | src/app/actions/addPlaceToItinerary.ts:94-112 | a new place's order is above every order already on its day and is either 1 or one more than an order present on that day, so it is the day's largest order (0 if none) plus one |
| Itinerary.NextOrderIgnoresOtherDays | src/app/actions/addPlaceToItinerary.ts:89-100 | places on other days or in other trips do not move a new place's order |
| Itinerary.AppendedPlaceGoesLast | src/app/actions/addPlaceToItinerary.ts:102-114 | after a place is added, the next place on its day gets that place's order plus one |
| Itinerary.ValidIds | src/app/actions/updateItineraryOrder.ts:38-48 | a sent id is kept exactly when it names one of the trip's places on that day, and no more ids are kept than were sent |
| Itinerary.ValidIdsOfOne | src/app/actions/updateItineraryOrder.ts:38-48 | a single sent id is kept exactly when it names one of the day's places |
| Itinerary.ValidIdsKeepOrder | src/app/actions/updateItineraryOrder.ts:38-48 | the valid ids of a list are those of its front followed by those of its back, so kept ids stay in the order sent and only stale ones drop out |
| Itinerary.SetOrder | src/app/actions/updateItineraryOrder.ts:52-53 | one update sets the order of the rows with that id and leaves every other row alone |
| Itinerary.Renumber | src/app/actions/updateItineraryOrder.ts:51-54 | the loop of updates keeps the number of rows |
| Itinerary.LastIndex | src/app/actions/updateItineraryOrder.ts:51-54 | the last position of an id in the sent list, after which it does not occur |
| Itinerary.RenumberAt | src/app/actions/updateItineraryOrder.ts:51-54 | a sent item ends with order one past its last position in the list; an unsent item is unchanged |
| Itinerary.DistinctIdsNumberedInSentOrder | src/app/actions/updateItineraryOrder.ts:51-54 | with distinct ids, the item sent k-th gets order k + 1 |
| Itinerary.RenumberKeepsRows | src/app/actions/updateItineraryOrder.ts:51-54 | a reorder changes only `order`, and only on the items whose ids were sent |
| Itinerary.ReorderLeavesOtherDaysAlone | src/app/actions/updateItineraryOrder.ts:38-48 | items of other days or other trips are untouched, whatever ids are sent |
| Itinerary.ReorderOfWholeDay | src/app/actions/updateItineraryOrder.ts:38-54 | when every sent id is one of the day's places, none is dropped, and the k-th gets order k + 1 |
| Store.StoredDescription | src/app/actions/addPlaceToItinerary.ts:107 | a description is stored trimmed, and as null exactly when it is missing or blank |
| Store.InviteLinkCarriesToken | src/app/actions/collaborationActions.ts:165-166 | the invite link ends in the token's digits, which read back as the token |
| Store.OptionalDate | src/app/actions/tripActions.ts:40-41 | an empty date field stores no date; any other text stores its parsed date |
| Store.DateChange | src/app/actions/updateTrip.ts:51-56 | an omitted date keeps the column, null or "" clears it, and other text is parsed |
| Store.NewDestination | src/app/actions/updateTrip.ts:63-65 | a given destination is stored trimmed; an omitted or null one is left alone |
| Store.TripStore.constructor | src/db/schema.ts:4-33 | an empty database is valid |
| Store.TripStore.AddUser | src/app/api/webhooks/clerk/route.ts:56-68 | `user.created` adds one user row with the Clerk id and the given e-mail and names, with missing ones stored as "", and on an existing Clerk id fails with the create-user error and changes nothing |
| Store.TripStore.CreateTrip | src/app/actions/tripActions.ts:10-42 | the sign-in, destination and user checks in order; on success exactly one private trip owned by the caller is appended |
| Store.TripStore.AddPlaceToItinerary | src/app/actions/addPlaceToItinerary.ts:42-138 | sign-in, field, user, trip and owner checks in order; on success one item with the trimmed name, the next order on its day and an `added_item` activity entry |
| Store.TripStore.DeletePlaceFromItinerary | src/app/actions/deletePlaceFromItinerary.ts:27-99 | checks in order; on success the place of that trip is gone and every other row is unchanged |
| Store.TripStore.UpdateItineraryOrder | src/app/actions/updateItineraryOrder.ts:22-54 | checks in order; on success the items are renumbered by the kept ids and nothing else changes |
| Store.TripStore.RenumberRows | src/app/actions/updateItineraryOrder.ts:49-53 | the update loop leaves the items renumbered as `Renumber` of the sent ids, keeps every other table, and keeps the database consistent |
| Store.TripStore.InviteCollaborator | src/app/actions/collaborationActions.ts:11-173 | sign-in, user, trip and permission checks in order; only the owner or an owner or editor collaborator may invite |
| Store.TripStore.InviteAllowed | src/app/actions/collaborationActions.ts:62-172 | a registered invitee is added unless already a collaborator; an unknown address gets a pending invitation unless already invited; the link carries the token |
| Store.TripStore.AddAccepted | src/app/actions/collaborationActions.ts:87-103 | one accepted collaborator row and one `invited_collaborator` entry are appended |
| Store.TripStore.AddPending | src/app/actions/collaborationActions.ts:139-160 | one invitation expiring seven days later, with a fresh token, and one activity entry are appended |
| Store.TripStore.RemoveCollaborator | src/app/actions/collaborationActions.ts:175-229 | only the owner may remove; the row with that id is deleted whatever its trip, and a `removed_collaborator` entry is logged |
| Store.TripStore.UpdateCollaboratorRole | src/app/actions/collaborationActions.ts:231-287 | only the owner may change roles; the row with that id gets the new role whatever its trip, and an `updated_collaborator_role` entry is logged |
| Store.TripStore.CancelPendingInvitation | src/app/actions/collaborationActions.ts:322-330 | any signed-in caller deletes the invitation with that id; nothing else changes |
| Store.TripStore.AddExpense | src/app/actions/expenses.ts:21-49 | checks in order; on success one expense with the amount rounded and clamped at 0 is appended |
| Store.TripStore.DeleteExpense | src/app/actions/expenses.ts:51-65 | checks in order; only an expense of that trip is deleted |
| Store.TripStore.SetCurrencyRate | src/app/actions/expenses.ts:67-90 | checks in order; the trip's row for the currency gets the rate, or one row is inserted |
| Store.TripStore.SetDailyBudget | src/app/actions/setDailyBudget.ts:10-38 | a non-finite or negative amount is refused; the day's row at midnight is updated, or one row is inserted |
| Store.TripStore.UpdatePlaceCost | src/app/actions/updatePlaceCost.ts:10-31 | an invalid cost is refused; a missing place or one of another trip is refused; clearing the cost clears its currency |
| Store.TripStore.UpdateTrip | src/app/actions/updateTrip.ts:23-103 | an end before the start is refused; the given fields are set, `updated_at` always, and one `updated` entry is logged |
| Store.TripStore.ToggleShareTrip | src/app/actions/toggleShare.ts:24-54 | making a trip public keeps its share id or draws a fresh one; making it private keeps the share id; the link is reported only for a public trip |
| Store.TripStore.DeleteTrip | src/app/actions/deleteTripAction.ts:19-84 | checks in order; on success the database is the cascade of deleting that trip |
| ItineraryDay.AddAccepted | src/components/ItineraryDate.tsx:92 | a place is submitted exactly when its name is not blank |
| ItineraryDay.NewPlace | src/components/ItineraryDate.tsx:126-133 | the local place has the server's id and the trimmed name; its description is null exactly when none was typed |
| Common.Append | src/components/ItineraryDate.tsx:135-136 | the new element comes last after the old list unchanged, so the order reported for a new place, `places.length`, is its index; `DayExpenses.tsx:105` appends an added expense the same way |
| Common.WithoutKey | src/components/ItineraryDate.tsx:173-175 | the list keeps exactly the elements whose id differs from the deleted one; `DayExpenses.tsx:121` removes an expense the same way |
| ItineraryDay.Ids | src/components/ItineraryDate.tsx:308 | the id list has one entry per place, in list order |
| Common.WithoutUniqueKey | src/components/ItineraryDate.tsx:173-175 | when only one element carries the id, removing it drops exactly that element and keeps the others in order |
| ItineraryDay.DeleteRemovesExactlyOne | src/components/ItineraryDate.tsx:173-175 | with distinct ids, deleting a place's id removes exactly that place and keeps the others in order |
| ItineraryDay.NumberTextShape | src/components/ItineraryDate.tsx:108 | a number the pattern matches is non-empty, has no comma and does not start with whitespace |
| ItineraryDay.SplitCoordinates | src/components/ItineraryDate.tsx:108 | a read of "lat,<spaces>lon" gives two well-formed numbers whose match is exactly the text read |
| ItineraryDay.SplitCoordinatesComplete | src/components/ItineraryDate.tsx:108 | every well-formed match is read back as itself |
| ItineraryDay.MatchAt | src/components/ItineraryDate.tsx:108 | a match starting at a position is a '\|' there followed by well-formed coordinates that run to the end of the name |
| ItineraryDay.CoordinateSuffix | src/components/ItineraryDate.tsx:108-112 | `exec` finds nothing exactly when the pattern matches at no position; otherwise it returns the match at the leftmost matching position, a well-formed "\|lat, lon" that ends the name |
| ItineraryDay.CoordinateSuffixComplete | src/components/ItineraryDate.tsx:108-112 | a name that ends in a well-formed "\|lat, lon" always yields coordinates |
| ItineraryDay.LocationFor | src/components/ItineraryDate.tsx:103-113 | a picked result gives its coordinates and address; otherwise the name's coordinates with no address, or none |
| ItineraryDay.SearchTrigger | src/components/ItineraryDate.tsx:193-199 | nothing happens while a place is picked in the add form; a trimmed query shorter than 3 clears the results; otherwise the trimmed query is searched |
| ItineraryDay.SearchIgnoresSurroundingSpace | src/components/ItineraryDate.tsx:237-242 | whitespace around the query never changes the outcome |
| ItineraryDay.SearchedQueryTrimmed | src/components/ItineraryDate.tsx:237-242 | a searched query has no whitespace at either end |
| ItineraryDay.IndexOf | src/components/ItineraryDate.tsx:305-306 | the index of the first place with that id |
| ItineraryDay.DragEnd | src/components/ItineraryDate.tsx:301-313 | no target, or a drop on itself, changes nothing; otherwise the dragged place lands at the target's index |
| ItineraryDay.IdsOfMove | src/components/ItineraryDate.tsx:307-308 | the ids of the moved list are the moved ids |
| ItineraryDay.DragPersistsPermutation | src/components/ItineraryDate.tsx:307-310 | the new list and the persisted id list are permutations of what was shown before |
| DayExpenses.AtRate | src/components/DayExpenses.tsx:62 | the converted amount is the product rounded to the nearest cent |
| DayExpenses.Convert | src/components/DayExpenses.tsx:59-63 | a code with no rate, or a rate of 0, converts to nothing; otherwise to the rounded product at the upper-cased code's rate |
| DayExpenses.TotalBase | src/components/DayExpenses.tsx:65-72 | the loop's total is the sum of the converted amounts |
| DayExpenses.TotalCountsExactlyConvertible | src/components/DayExpenses.tsx:65-72 | the total is the sum over exactly the expenses that convert, in list order |
| DayExpenses.NothingConvertibleTotalsZero | src/components/DayExpenses.tsx:65-72 | when no expense converts, the total is 0 |
| DayExpenses.MissingCurrencies | src/components/DayExpenses.tsx:74-81 | the loop's list is the upper-cased qualifying codes, each once, in first-seen order |
| DayExpenses.MissingSpec | src/components/DayExpenses.tsx:74-81 | the missing list has no duplicates and holds exactly the codes, other than the base, that have no map entry |
| DayExpenses.BaseCurrencyExpenseVanishes | src/components/DayExpenses.tsx:59-81 | as written, a base-currency expense with no base entry in the map is neither counted nor listed as missing |
| DayExpenses.UsableRate | src/components/DayExpenses.tsx:59-63 | the corrected rate: a non-zero map entry, else 1 for the base currency, else none |
| DayExpenses.ConvertAtPar | src/components/DayExpenses.tsx:59-63 | the corrected convert takes the base currency at par when the map has no rate for it |
| DayExpenses.BaseAmountAtPar | src/components/DayExpenses.tsx:59-63 | with the correction, a base-currency amount is counted unchanged |
| DayExpenses.ConvertAtParAgreesOffBase | src/components/DayExpenses.tsx:59-63 | the correction changes nothing for other currencies |
| DayExpenses.EveryExpenseCountedOrFlagged | src/components/DayExpenses.tsx:65-81 | with the correction, every expense is either in the total or has its code listed as missing |
| DayExpenses.Digits | src/components/DayExpenses.tsx:88 | `replace(/\D+/g, "")` leaves only digits and is no longer than the field |
| DayExpenses.DecimalZeroIffZeros | src/components/DayExpenses.tsx:89-91 | a digit run is 0 exactly when every digit in it is '0' |
| DayExpenses.SubmittedCents | src/components/DayExpenses.tsx:86-91 | the form is sent only with a positive amount, a whole multiple of 100 cents |
| DayExpenses.SubmittedCentsSpec | src/components/DayExpenses.tsx:86-91 | the form is sent exactly when the field has a non-zero digit; the amount is then its digits as whole units |
| DayExpenses.PointedAmountHundredfold | src/components/DayExpenses.tsx:88-90 | as written, "w.cc" is sent as 100 times the cents it denotes |
| DayExpenses.DecimalPointIgnored | src/components/DayExpenses.tsx:88-90 | as written, "12.50" is sent as 125000 cents |
| DayExpenses.CorrectedCents | src/components/DayExpenses.tsx:88-90 | the corrected reading sends only a positive number of cents |
| DayExpenses.CorrectedCentsOfSplit | src/components/DayExpenses.tsx:88-90 | "w.f" reads as the units of w plus the cents f writes |
| DayExpenses.CorrectedCentsRoundTrip | src/components/DayExpenses.tsx:88-90 | with the correction, "units.cc" reads back as exactly units * 100 + cc cents |
| DayExpenses.CorrectedAgreesOnWholeUnits | src/components/DayExpenses.tsx:88-90 | on a whole number with no point, the correction agrees with the original reading |
| DayExpenses.RateSubmission | src/components/DayExpenses.tsx:131-137 | a rate is sent only with a non-blank trimmed upper-cased code and a finite positive rate |
| DayExpenses.AcceptedRateMakesConvertible | src/components/DayExpenses.tsx:131-137 | once an accepted rate is in the map, every expense in that currency converts |
| DayExpenses.RemoveLocalTotal | src/components/DayExpenses.tsx:121 | with distinct ids, removing an expense lowers the shown total by exactly that expense's contribution |
| DayExpenses.AddLocalTotal | src/components/DayExpenses.tsx:65-72 | adding an expense raises the total by exactly that expense's contribution |
| DayExpenses.TotalConcat | src/components/DayExpenses.tsx:65-72 | the shown total of two lists one after the other is the sum of their totals |
| Common.WithoutAbsentKey | src/components/DayExpenses.tsx:121 | removing an id that no element carries leaves the list as it was |
| PresenceList.ApplyPresence | src/hooks/useRealtimeCollaboration.ts:38-44 | the new list grows by at most one and holds only the event's record and earlier entries |
| PresenceList.CountAfterDrop | src/hooks/useRealtimeCollaboration.ts:39 | dropping one user's entries keeps every other user's count |
| PresenceList.EventUserListedOnce | src/hooks/useRealtimeCollaboration.ts:38-44 | after an event its user is listed once and last if active, and not at all if not |
| PresenceList.OthersKeepTheirOrder | src/hooks/useRealtimeCollaboration.ts:38-44 | other users' entries keep their relative order |
| PresenceList.OtherUsersUnchanged | src/hooks/useRealtimeCollaboration.ts:38-44 | every other user is listed as often as before |
| PresenceList.PresenceKeepsOnePerUser | src/hooks/useRealtimeCollaboration.ts:38-44 | the reducer keeps every user listed at most once |
| People.Initials | src/components/CollaboratorsList.tsx:84-92 | at most two upper-case characters: the two name initials, or the first two letters of the first name, or of the e-mail address |
| People.LoneLastNameIgnored | src/components/ActiveUsers.tsx:18-26 | without a first name, the last name is ignored and the e-mail address is used |
| People.NamedInitialsIgnoreEmail | src/components/ActiveUsers.tsx:18-26 | with a first name, the initials do not depend on the e-mail address |
| People.DisplayName | src/components/ActiveUsers.tsx:28-31 | the e-mail address when both names are falsy, otherwise the non-empty full name |
| People.DisplayNameShowsNames | src/components/CollaboratorsList.tsx:107-110 | the shown name starts with a set first name and ends with a set last name |
| ActiveUsers.Render | src/components/ActiveUsers.tsx:33-63 | nothing for no users; else the first min(n, 5) users as avatars, in order, with a "+k" badge exactly when n > 5 |
| ActiveUsers.EveryUserCounted | src/components/ActiveUsers.tsx:39-63 | the avatars plus the badge count every user |
| CollaboratorsList.RoleColor | src/components/CollaboratorsList.tsx:71-81 | each role has its colour, and anything else gets the viewer colour |
| CollaboratorsList.RoleColorsTellRolesApart | src/components/CollaboratorsList.tsx:71-81 | two roles share a colour exactly when they are equal, and an unknown role looks like a viewer |
| CollaboratorsList.ControlsFor | src/components/CollaboratorsList.tsx:149-166 | the toggle shows exactly for an owner viewing someone else, and the editor only when that row is expanded too |
| CollaboratorsList.NoControlsWithoutOwnership | src/components/CollaboratorsList.tsx:106-166 | a non-owner sees no controls, and nobody sees controls on their own row |
| CollaboratorsList.InvitedBy | src/components/CollaboratorsList.tsx:190-196 | the "Invited by" line shows exactly when an inviter is known, with the inviter's display name |
| CollaborationPanel.InviteButtonShown | src/components/CollaborationPanel.tsx:117 | the invite button shows exactly for the owner or when the viewer's first row is an editor row |
| CollaborationPanel.ViewerRowIsFirst | src/components/CollaborationPanel.tsx:117 | the row `find` picks is the viewer's first row |
| CollaborationPanel.InviteButtonWithinServerRule | src/app/actions/collaborationActions.ts:54-59 | whenever the button shows, the server lets that user invite; a non-owner viewer never sees it |
| CollaborationPanel.OwnerRoleRowHidesButton | src/components/CollaborationPanel.tsx:117 | a non-owner with an owner-role row does not see the button, though the server would accept the invitation |
| CollaborationPanel.MemberLabel | src/components/CollaborationPanel.tsx:92 | "1 member" for one collaborator, otherwise the count followed by " members" |
| CollaborationPanel.MemberLabelCount | src/components/CollaborationPanel.tsx:92 | the label starts with digits that read back as the count |
| CollaborationPanel.ActiveDisplayFor | src/components/CollaborationPanel.tsx:70-112 | the badge and the active-users section show exactly when someone is active, and the badge counts them |
| CollaborationPanel.BadgeAndSectionTogether | src/components/CollaborationPanel.tsx:105-112 | the badge and the section are shown together or not at all |
| ActivityFeed.IconFor | src/components/ActivityFeed.tsx:23-40 | each known action has its own icon, and any other action gets the default |
| ActivityFeed.CollaboratorChangesUseDefaultIcon | src/components/ActivityFeed.tsx:23-40 | removals and role changes of collaborators get the default icon |
| ActivityFeed.Invitee | src/components/ActivityFeed.tsx:56-58 | the invitation's e-mail when non-empty, otherwise "a collaborator" |
| ActivityFeed.ActionPhrase | src/components/ActivityFeed.tsx:47-65 | an invitation names the invitee, and an unknown action reads "performed an action" |
| ActivityFeed.ActivityText | src/components/ActivityFeed.tsx:42-66 | the sentence is the author's display name, a space, then the action's phrase |
| ActivityFeed.SentenceIndependentOfAuthor | src/components/ActivityFeed.tsx:42-66 | the phrase after the name does not depend on who acted |
| ActivityFeed.AgeOf | src/components/ActivityFeed.tsx:68-80 | under a minute is "just now"; then floor minutes under an hour, floor hours under a day, floor days under a week; else the date |
| ActivityFeed.AgeMonotone | src/components/ActivityFeed.tsx:68-80 | an older entry never shows a fresher bucket than a newer one |
| ActivityFeed.FormatTimestamp | src/components/ActivityFeed.tsx:68-81 | the labels "Just now", "Nm ago", "Nh ago", "Nd ago", or the locale date |
| TripCard.DayCount | src/components/TripCard.tsx:46-55 | the count is at least 1, and one more than the span in days rounded up |
| TripCard.WholeDaysCountBothEnds | src/components/TripCard.tsx:52 | a span of exactly k days counts k + 1 days |
| TripCard.Duration | src/components/TripCard.tsx:46-55 | "" exactly when a date is missing, "1 day" exactly for a one-day count, otherwise the count and " days" |
| TripCard.DurationSymmetric | src/components/TripCard.tsx:46-55 | swapping the two dates does not change the label |
| TripCard.FormatDate | src/components/TripCard.tsx:37-44 | a missing date shows "Date TBD"; a present one shows its locale rendering |
| TripCard.DateLine | src/components/TripCard.tsx:116-118 | with both dates, the two locale renderings joined by " - "; otherwise "Dates to be planned" |

## Left out

- The Pusher transport of events and the presence writes are left out. `PresenceList` models only how the client reduces the events it receives.
- The geocoding search requests (`fetch`, `AbortController`, the debounce timer) are left out. `ItineraryDay.SearchTrigger` states only when a search starts.
- Clerk authentication is reduced to the caller's Clerk id, or none for a signed-out visitor. The sign-in redirect is an error value.
- The webhook's signature check (svix headers and secret) and its `GET` probe are left out. `Store.TripStore.AddUser` models the `user.created` insert.
- The expense, currency-rate and daily-budget tables are not defined in `src/db/schema.ts` or `drizzle/schema.ts`; only `drizzle/relations.ts` names them. That their trip reference exists and cascades on a trip delete (`Database.ExpensesOk`, `RatesOk`, `BudgetsOk`, `Database.DeleteTripCascade`) is an assumption of the model, not something those files show; `deleteTripAction.ts` itself deletes only the trip row.
- An expense's link to an itinerary item is not checked and is not cleared when the place is deleted, in the source and in the model alike.
- `revalidatePath`, `console` logging and the `try`/`catch` around database failures are left out. The model's database never fails.
- Concurrent requests are left out. Each action runs alone, so the check-then-insert races of the source are not modelled.
- UUIDs, share ids and invitation tokens are drawn from one counter, not `crypto` or `uuidv4`. Their uniqueness is proved, but their randomness is not modelled.
- Floating-point numbers are exact reals, and `parseFloat` of coordinates keeps the matched text. The cents fields are integers where the source rounds them.
- Time zones are reduced to one fixed offset (`Schema.DayOf`). `toDateString` comparisons are day comparisons.
- `toLocaleDateString` and date parsing are function parameters.
- `toUpperCase` covers ASCII letters only. Strings are sequences of characters, not UTF-16 code units.
- The JSON `metadata` column is a datatype, not serialised text.
- The read-only queries `getCollaborators`, `getPendingInvitations` and `getTripActivity` are left out. They select rows and change nothing.
- src/app/actions/trip-actions.ts duplicates `createTrip` and is not part of this model.
- The rate map that `DayExpenses` receives is built by a page that is not part of this model, so `DayExpenses` takes it as a parameter.
- `arrayMove` comes from a library that is not part of this model. It is modelled as a move of one element.
- Pages, layouts, toasts, modals and map rendering are presentation only and are left out.
- ItineraryDay.DragEnd: requires the dragged and target ids to be among the shown places. The drag kit only reports ids of rendered items.
- Itinerary.Renumber: states only that the row count is kept. Its meaning is stated by `Itinerary.RenumberAt` and `Itinerary.DistinctIdsNumberedInSentOrder`.

## Findings

| source | as written | input that shows it | evidently intended | confidence | as-written member | corrected member |
|---|---|---|---|---|---|---|
| src/components/DayExpenses.tsx:59-81 | `convert` returns null when the rate map has no entry for the base currency, and `missingCurrencies` never lists the base | base currency "USD", an empty rate map and one expense of 1000 cents in "usd": the total is 0 and nothing is flagged | a base-currency amount counts at par, so every expense is either counted or flagged | not executed | DayExpenses.BaseCurrencyExpenseVanishes | DayExpenses.EveryExpenseCountedOrFlagged |
| src/components/DayExpenses.tsx:88-90 | the amount field keeps only its digits and multiplies them by 100 | the field "12.50" is sent as 125000 cents | "12.50" is sent as 1250 cents | not executed | DayExpenses.DecimalPointIgnored | DayExpenses.CorrectedCentsRoundTrip |
