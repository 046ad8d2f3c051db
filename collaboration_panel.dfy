// The collaboration side panel (src/components/CollaborationPanel.tsx):
// the member count, the active-user badge and section, and who is offered
// the invite button.
module CollaborationPanel {
  import opened Common
  import opened Text
  import opened Schema
  import Database
  import People
  import PresenceList
  import ActiveUsers

  /** A row of the panel's collaborator list: the collaborator row joined with its user. */
  datatype Member = Member(id: Id, role: Role, userId: Id, user: People.Person, inviter: Option<People.Person>)

  function IsRowOf(userId: Id): Member -> bool
  {
    (m: Member) => m.userId == userId
  }

  /** Row `i` is the viewer's, and no earlier row is. */
  predicate IsFirstRowOf(members: seq<Member>, userId: Id, i: int)
  {
    0 <= i < |members| && members[i].userId == userId && forall j :: 0 <= j < i ==> members[j].userId != userId
  }

  /** `collaborators.find(c => c.user.id === currentUserId)`: the index of the viewer's first row. */
  function ViewerRow(members: seq<Member>, currentUserId: Id): Option<nat>
  {
    FindIndex(members, IsRowOf(currentUserId))
  }

  /** The invite button: the owner always; otherwise only a viewer whose first row has the editor role. */
  function InviteButtonShown(isOwner: bool, members: seq<Member>, currentUserId: Id): (r: bool)
    ensures r <==> isOwner || exists i :: IsFirstRowOf(members, currentUserId, i) && members[i].role == Editor
  {
    var row := ViewerRow(members, currentUserId);
    ViewerRowIsFirst(members, currentUserId);
    isOwner || (row.Some? && members[row.value].role == Editor)
  }

  /** The row `find` returns is the only row of the viewer with no earlier row of the viewer before it. */
  lemma ViewerRowIsFirst(members: seq<Member>, currentUserId: Id)
    ensures forall i :: IsFirstRowOf(members, currentUserId, i) ==> ViewerRow(members, currentUserId) == Some(i)
  {
    forall i | IsFirstRowOf(members, currentUserId, i)
      ensures ViewerRow(members, currentUserId) == Some(i)
    {
      assert IsRowOf(currentUserId)(members[i]);
      FindIndexIsFirst(members, IsRowOf(currentUserId), i);
    }
  }

  /**
   * Whenever the button is shown the server's rule lets the invitation
   * through, given that the panel lists the same role the server reads for
   * the viewer; and a viewer-role collaborator who does not own the trip
   * never sees it.
   */
  lemma InviteButtonWithinServerRule(isOwner: bool, members: seq<Member>, currentUserId: Id, row: Option<Collaborator>)
    requires row.Some? <==> ViewerRow(members, currentUserId).Some?
    requires row.Some? ==> row.value.role == members[ViewerRow(members, currentUserId).value].role
    ensures InviteButtonShown(isOwner, members, currentUserId) ==> Database.CanInvite(isOwner, row)
    ensures !isOwner && (row.None? || row.value.role == Viewer) ==> !InviteButtonShown(isOwner, members, currentUserId)
  {
  }

  /**
   * A collaborator row with the owner role, held by someone who does not own
   * the trip, hides the button although the server would accept their
   * invitation.
   */
  lemma OwnerRoleRowHidesButton(person: People.Person, row: Collaborator)
    requires row.role == Owner
    ensures var members := [Member(row.id, Owner, row.userId, person, None)];
      !InviteButtonShown(false, members, row.userId) && Database.CanInvite(false, Some(row))
  {
    var members := [Member(row.id, Owner, row.userId, person, None)];
    assert ViewerRow(members, row.userId) == Some(0);
  }

  /** The header under the title: the member count, "member" for exactly one and "members" otherwise, zero included. */
  function MemberLabel(count: nat): (r: string)
    ensures var n := NatToString(count);
      |n| < |r| && r[..|n|] == n && (r[|n|..] == " member" <==> count == 1)
    ensures count != 1 ==> r[|NatToString(count)|..] == " members"
  {
    NatToString(count) + (if count == 1 then " member" else " members")
  }

  /** The rendered count reads back as the number of collaborators. */
  lemma MemberLabelCount(count: nat)
    ensures var r := MemberLabel(count);
      exists k :: 0 < k < |r| && AllDigits(r[..k]) && DecimalValue(r[..k]) == count && r[k] == ' '
  {
    var n := NatToString(count);
    var r := MemberLabel(count);
    DecimalRoundTrip(count);
    assert r[..|n|] == n;
    assert r[|n|] == ' ';
  }

  /** What presence shows: the badge with the count on the floating button, and the "Currently active" section. */
  datatype ActiveDisplay = ActiveDisplay(badge: Option<nat>, section: Option<ActiveUsers.Strip>)

  function ActiveDisplayFor(activeUsers: seq<PresenceList.PresenceRecord>): (r: ActiveDisplay)
    ensures r.badge.Some? <==> |activeUsers| > 0
    ensures r.badge.Some? ==> r.badge.value == |activeUsers|
    ensures r.section == (if |activeUsers| > 0 then ActiveUsers.Render(activeUsers) else None)
  {
    if |activeUsers| > 0 then ActiveDisplay(Some(|activeUsers|), ActiveUsers.Render(activeUsers))
    else ActiveDisplay(None, None)
  }

  /** The badge and the section appear together, and the section is never an empty strip. */
  lemma BadgeAndSectionTogether(activeUsers: seq<PresenceList.PresenceRecord>)
    ensures var d := ActiveDisplayFor(activeUsers);
      (d.badge.Some? <==> d.section.Some?) && (d.section.Some? ==> |d.section.value.avatars| > 0)
  {
  }
}
