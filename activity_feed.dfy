// The activity feed (src/components/ActivityFeed.tsx): the icon and the
// sentence for each entry, and the relative time shown beside it.
module ActivityFeed {
  import opened Common
  import opened Text
  import opened Schema
  import People

  // ---------------------------------------------------------------------
  // Icons and sentences

  datatype Icon = PlusIcon | PencilIcon | TrashIcon | MapPinIcon | UsersIcon | DefaultIcon

  /** The actions with an icon of their own. */
  const IconActions: set<string> := {"created", "updated", "deleted", "added_item", "removed_item", "invited_collaborator"}

  /** `getActivityIcon`. */
  function IconFor(action: string): (r: Icon)
    ensures r == DefaultIcon <==> action !in IconActions
    ensures r == TrashIcon <==> action == "deleted" || action == "removed_item"
    ensures r == PlusIcon <==> action == "created"
    ensures r == UsersIcon <==> action == "invited_collaborator"
  {
    match action
    case "created" => PlusIcon
    case "updated" => PencilIcon
    case "deleted" => TrashIcon
    case "added_item" => MapPinIcon
    case "removed_item" => TrashIcon
    case "invited_collaborator" => UsersIcon
    case _ => DefaultIcon
  }

  /** The removal and role-change entries have sentences of their own but the default icon. */
  lemma CollaboratorChangesUseDefaultIcon()
    ensures IconFor("removed_collaborator") == DefaultIcon
    ensures IconFor("updated_collaborator_role") == DefaultIcon
  {
  }

  /** The actions with a sentence of their own. */
  const TextActions: set<string> := {
    "created", "updated", "added_item", "removed_item",
    "invited_collaborator", "removed_collaborator", "updated_collaborator_role"}

  /** `metadata.email || "a collaborator"`: the invited address when the entry recorded a non-empty one. */
  function Invitee(metadata: Metadata): (r: string)
    ensures r != ""
    ensures metadata.Invitation? && metadata.email != "" ==> r == metadata.email
  {
    if metadata.Invitation? && metadata.email != "" then metadata.email else "a collaborator"
  }

  /** What follows the author's name: a sentence of its own for each known action, a generic one for any other. */
  function ActionPhrase(action: string, metadata: Metadata): (r: string)
    ensures action !in TextActions ==> r == "performed an action"
    ensures action == "invited_collaborator" ==> r == "invited " + Invitee(metadata)
  {
    match action
    case "created" => "created the trip"
    case "updated" => "updated the trip"
    case "added_item" => "added an item to the itinerary"
    case "removed_item" => "removed an item from the itinerary"
    case "invited_collaborator" => "invited " + Invitee(metadata)
    case "removed_collaborator" => "removed a collaborator"
    case "updated_collaborator_role" => "updated a collaborator's role"
    case _ => "performed an action"
  }

  /** `getActivityText`: the author's display name, a space, and what they did. */
  function ActivityText(author: People.Person, action: string, metadata: Metadata): (r: string)
    ensures var name := People.DisplayName(author.firstName, author.lastName, author.email);
      |name| < |r| && r[..|name|] == name && r[|name|..] == " " + ActionPhrase(action, metadata)
  {
    var name := People.DisplayName(author.firstName, author.lastName, author.email);
    var tail := " " + ActionPhrase(action, metadata);
    SplitAfter(name, tail);
    name + tail
  }

  lemma SplitAfter(head: string, tail: string)
    ensures (head + tail)[..|head|] == head && (head + tail)[|head|..] == tail
  {
  }

  /** What an entry says after the author's name depends only on the action and the metadata, not on who the author is. */
  lemma SentenceIndependentOfAuthor(a: People.Person, b: People.Person, action: string, metadata: Metadata)
    ensures var na := People.DisplayName(a.firstName, a.lastName, a.email);
      var nb := People.DisplayName(b.firstName, b.lastName, b.email);
      ActivityText(a, action, metadata)[|na|..] == ActivityText(b, action, metadata)[|nb|..]
  {
  }

  // ---------------------------------------------------------------------
  // Relative time

  const MsPerMinute: int := 60000
  const MsPerHour: int := 3600000

  /** The buckets of `formatTimestamp`; the last falls back to the locale's date. */
  datatype Age = JustNow | MinutesAgo(minutes: nat) | HoursAgo(hours: nat) | DaysAgo(days: nat) | OnDate(date: Timestamp)

  /**
   * `formatTimestamp`, with the clock reading as a parameter: whole minutes,
   * hours and days elapsed, each rounded down (`Math.floor`), checked in
   * that order.
   */
  function AgeOf(now: Timestamp, date: Timestamp): (r: Age)
    ensures r.JustNow? <==> now - date < MsPerMinute
    ensures r.MinutesAgo? <==> MsPerMinute <= now - date < MsPerHour
    ensures r.HoursAgo? <==> MsPerHour <= now - date < MsPerDay
    ensures r.DaysAgo? <==> MsPerDay <= now - date < 7 * MsPerDay
    ensures r.OnDate? ==> r.date == date
    ensures r.MinutesAgo? ==> 1 <= r.minutes < 60 && r.minutes * MsPerMinute <= now - date < (r.minutes + 1) * MsPerMinute
    ensures r.HoursAgo? ==> 1 <= r.hours < 24 && r.hours * MsPerHour <= now - date < (r.hours + 1) * MsPerHour
    ensures r.DaysAgo? ==> 1 <= r.days < 7 && r.days * MsPerDay <= now - date < (r.days + 1) * MsPerDay
  {
    var diffMs := now - date;
    // Dafny's `/` rounds toward negative infinity when the divisor is positive, as `Math.floor` does.
    var diffMins := diffMs / MsPerMinute;
    var diffHours := diffMs / MsPerHour;
    var diffDays := diffMs / MsPerDay;
    if diffMins < 1 then JustNow
    else if diffMins < 60 then MinutesAgo(diffMins)
    else if diffHours < 24 then HoursAgo(diffHours)
    else if diffDays < 7 then DaysAgo(diffDays)
    else OnDate(date)
  }

  /** The position of a bucket, from the most recent to the oldest. */
  function Rank(a: Age): nat
  {
    match a
    case JustNow => 0
    case MinutesAgo(_) => 1
    case HoursAgo(_) => 2
    case DaysAgo(_) => 3
    case OnDate(_) => 4
  }

  /** An older entry never lands in a more recent bucket, and within a bucket its count is never smaller. */
  lemma AgeMonotone(now: Timestamp, older: Timestamp, newer: Timestamp)
    requires older <= newer
    ensures Rank(AgeOf(now, older)) >= Rank(AgeOf(now, newer))
    ensures AgeOf(now, older).MinutesAgo? && AgeOf(now, newer).MinutesAgo? ==>
      AgeOf(now, older).minutes >= AgeOf(now, newer).minutes
    ensures AgeOf(now, older).HoursAgo? && AgeOf(now, newer).HoursAgo? ==>
      AgeOf(now, older).hours >= AgeOf(now, newer).hours
    ensures AgeOf(now, older).DaysAgo? && AgeOf(now, newer).DaysAgo? ==>
      AgeOf(now, older).days >= AgeOf(now, newer).days
  {
  }

  /** The text shown: "Just now", "{m}m ago", "{h}h ago", "{d}d ago", or the locale's rendering of the date. */
  function FormatTimestamp(now: Timestamp, date: Timestamp, localeDate: Timestamp -> string): (r: string)
    ensures now - date < MsPerMinute ==> r == "Just now"
    ensures AgeOf(now, date).MinutesAgo? ==> r == NatToString(AgeOf(now, date).minutes) + "m ago"
    ensures AgeOf(now, date).HoursAgo? ==> r == NatToString(AgeOf(now, date).hours) + "h ago"
    ensures AgeOf(now, date).DaysAgo? ==> r == NatToString(AgeOf(now, date).days) + "d ago"
    ensures now - date >= 7 * MsPerDay ==> r == localeDate(date)
  {
    match AgeOf(now, date)
    case JustNow => "Just now"
    case MinutesAgo(m) => NatToString(m) + "m ago"
    case HoursAgo(h) => NatToString(h) + "h ago"
    case DaysAgo(d) => NatToString(d) + "d ago"
    case OnDate(t) => localeDate(t)
  }
}
