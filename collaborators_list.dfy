// The rows of the collaborators list (src/components/CollaboratorsList.tsx):
// the role badge colour, who gets the role and remove controls, and how the
// inviter is named.
module CollaboratorsList {
  import opened Common
  import opened Schema
  import People

  const OwnerColor := "bg-purple-100 text-purple-800"
  const EditorColor := "bg-blue-100 text-blue-800"
  const ViewerColor := "bg-gray-100 text-gray-800"

  /** `getRoleColor`: purple for owners, blue for editors, grey for viewers and for any other text. */
  function RoleColor(role: string): (r: string)
    ensures role == "owner" ==> r == OwnerColor
    ensures role == "editor" ==> r == EditorColor
    ensures role != "owner" && role != "editor" ==> r == ViewerColor
  {
    match role
    case "owner" => OwnerColor
    case "editor" => EditorColor
    case "viewer" => ViewerColor
    case _ => ViewerColor
  }

  /** The three roles a row can hold get three different colours, and text outside the enum looks like a viewer. */
  lemma RoleColorsTellRolesApart(a: Role, b: Role, other: string)
    ensures RoleColor(RoleName(a)) == RoleColor(RoleName(b)) <==> a == b
    ensures ParseRole(other).None? ==> RoleColor(other) == RoleColor(RoleName(Viewer))
  {
  }

  /** The controls a row shows: the expand toggle, and the role select with the remove button. */
  datatype RowControls = RowControls(toggle: bool, editor: bool)

  /** Only the trip's owner gets controls, never on their own row; the editor shows only while the row is expanded. */
  function ControlsFor(isOwner: bool, currentUserId: Id, rowUserId: Id, isExpanded: bool): (c: RowControls)
    ensures c.toggle <==> isOwner && rowUserId != currentUserId
    ensures c.editor <==> isExpanded && c.toggle
  {
    var isCurrentUser := rowUserId == currentUserId;
    RowControls(isOwner && !isCurrentUser, isExpanded && isOwner && !isCurrentUser)
  }

  /** Whatever is expanded, a non-owner sees no control on any row and nobody can change or remove themselves. */
  lemma NoControlsWithoutOwnership(isOwner: bool, currentUserId: Id, rowUserId: Id, isExpanded: bool)
    requires !isOwner || rowUserId == currentUserId
    ensures ControlsFor(isOwner, currentUserId, rowUserId, isExpanded) == RowControls(false, false)
  {
  }

  /** The "Invited by" line: shown only when the row has an inviter, naming them like any display name. */
  function InvitedBy(inviter: Option<People.Person>): (r: Option<string>)
    ensures r.Some? <==> inviter.Some?
    ensures r.Some? ==> r.value == People.DisplayName(inviter.value.firstName, inviter.value.lastName, inviter.value.email)
  {
    if inviter.None? then None
    else Some(People.DisplayName(inviter.value.firstName, inviter.value.lastName, inviter.value.email))
  }
}
