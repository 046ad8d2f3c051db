// The `update ... set ... where ...` statements of the server actions, as
// functions from a table to the same table afterwards. Each changes the
// matching rows' named columns and nothing else; no update touches a key
// or a reference column, except the share id `toggleShareTrip` may add.
module Updates {
  import opened Common
  import opened Schema

  /** A column an update may leave alone or overwrite. */
  datatype Change<T> = Keep | SetTo(value: T)

  /** The column's value after the update. */
  function Apply<T>(c: Change<T>, current: T): T
  {
    if c.SetTo? then c.value else current
  }

  /** `update trip_collaborators set role, updated_at where id = collaboratorId` (any trip). */
  function SetRole(rows: seq<Collaborator>, collaboratorId: Id, role: InviteRole, now: Timestamp): seq<Collaborator>
  {
    seq(|rows|, i requires 0 <= i < |rows| =>
      if rows[i].id == collaboratorId then rows[i].(role := role, updatedAt := now) else rows[i])
  }

  /**
   * `update itinerary_items set cost_cents, cost_currency where id = placeId`:
   * a cleared cost clears the currency too.
   */
  function SetCost(items: seq<ItineraryItem>, placeId: Id, cost: Option<real>, currency: string): seq<ItineraryItem>
  {
    seq(|items|, i requires 0 <= i < |items| =>
      if items[i].id == placeId
      then items[i].(costCents := cost, costCurrency := if cost.None? then None else Some(currency))
      else items[i])
  }

  /** `update currency_rates set rate_to_base where trip_id = tripId and currency = currency`. */
  function SetRate(rows: seq<CurrencyRate>, tripId: Id, currency: string, rate: real): seq<CurrencyRate>
  {
    seq(|rows|, i requires 0 <= i < |rows| =>
      if rows[i].tripId == tripId && rows[i].currency == currency then rows[i].(rateToBase := rate) else rows[i])
  }

  /** `update daily_budgets set amount_cents, currency where id = budgetId`. */
  function SetBudget(rows: seq<DailyBudget>, budgetId: Id, amount: real, currency: string): seq<DailyBudget>
  {
    seq(|rows|, i requires 0 <= i < |rows| =>
      if rows[i].id == budgetId then rows[i].(amountCents := amount, currency := currency) else rows[i])
  }

  /**
   * `updateTrip`'s `update trips set ... where id = tripId`: `updated_at`
   * always, the destination and each date only when given.
   */
  function EditTrip(trips: seq<Trip>, tripId: Id, destination: Change<string>,
                    start: Change<Option<Timestamp>>, end: Change<Option<Timestamp>>, now: Timestamp): seq<Trip>
  {
    seq(|trips|, i requires 0 <= i < |trips| =>
      if trips[i].id == tripId
      then trips[i].(destination := Apply(destination, trips[i].destination),
                     startDate := Apply(start, trips[i].startDate),
                     endDate := Apply(end, trips[i].endDate), updatedAt := now)
      else trips[i])
  }

  /**
   * `toggleShareTrip`'s `update trips set is_public, updated_at where id = tripId`,
   * which also sets `share_id` when the trip is made public.
   */
  function ShareTrip(trips: seq<Trip>, tripId: Id, isPublic: bool, shareId: Change<Id>, now: Timestamp): seq<Trip>
  {
    seq(|trips|, i requires 0 <= i < |trips| =>
      if trips[i].id == tripId
      then trips[i].(isPublic := isPublic, shareId := if shareId.SetTo? then Some(shareId.value) else trips[i].shareId,
                     updatedAt := now)
      else trips[i])
  }
}
