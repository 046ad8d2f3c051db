// The strip of avatars for the users currently on a trip
// (src/components/ActiveUsers.tsx): the first five users, then a "+n"
// counter for the rest.
module ActiveUsers {
  import opened Common
  import opened PresenceList
  import People

  /** The most avatars the strip shows. */
  const MaxAvatars: nat := 5

  /** One avatar: keyed by the user id, showing the initials, titled with the display name. */
  datatype Avatar = Avatar(key: string, initials: string, title: string)

  /** What is rendered: the avatars in list order, and the overflow count when there is one. */
  datatype Strip = Strip(avatars: seq<Avatar>, more: Option<nat>)

  function AvatarOf(u: PresenceRecord): Avatar
  {
    Avatar(u.userId, People.Initials(u.firstName, u.lastName, u.email), People.DisplayName(u.firstName, u.lastName, u.email))
  }

  /** The component: nothing for no users; otherwise avatars for the first five and "+(n - 5)" beyond five. */
  function Render(users: seq<PresenceRecord>): (r: Option<Strip>)
    ensures r.None? <==> |users| == 0
    ensures r.Some? ==> |r.value.avatars| == (if |users| < MaxAvatars then |users| else MaxAvatars)
    ensures r.Some? ==> forall i :: 0 <= i < |r.value.avatars| ==> r.value.avatars[i] == AvatarOf(users[i])
    ensures r.Some? ==> (r.value.more.Some? <==> |users| > MaxAvatars)
  {
    if |users| == 0 then None
    else
      var shown := if |users| < MaxAvatars then users else users[..MaxAvatars];
      var avatars := seq(|shown|, i requires 0 <= i < |shown| => AvatarOf(shown[i]));
      Some(Strip(avatars, if |users| > MaxAvatars then Some(|users| - MaxAvatars) else None))
  }

  /** Every user is accounted for exactly once: by an avatar or by the overflow count. */
  lemma EveryUserCounted(users: seq<PresenceRecord>)
    requires |users| > 0
    ensures var s := Render(users).value;
      |s.avatars| + (if s.more.Some? then s.more.value else 0) == |users|
  {
  }
}
