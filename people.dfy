// How a person is shown on the collaboration screens: the two-letter
// avatar initials and the display name. src/components/CollaboratorsList.tsx
// and src/components/ActiveUsers.tsx each define the same `getInitials` and
// name fallback; both use the definitions here.
module People {
  import opened Common
  import opened Text

  /** The user fields the screens read: a collaborator, an inviter, or the author of an activity entry. */
  datatype Person = Person(email: string, firstName: Option<string>, lastName: Option<string>)

  /**
   * `getInitials`: with a first and a last name, their first letters; with
   * only a first name, its first two characters; otherwise the first two
   * characters of the e-mail address; upper-cased in every case.
   */
  function Initials(firstName: Option<string>, lastName: Option<string>, email: string): (r: string)
    ensures |r| <= 2 && ToUpper(r) == r
    ensures Truthy(firstName) && Truthy(lastName) ==>
      |r| == 2 && r[0] == UpperChar(firstName.value[0]) && r[1] == UpperChar(lastName.value[0])
    ensures Truthy(firstName) && !Truthy(lastName) ==> r == ToUpper(Take(firstName.value, 2))
    ensures !Truthy(firstName) ==> r == ToUpper(Take(email, 2))
  {
    var source :=
      if Truthy(firstName) && Truthy(lastName) then [firstName.value[0], lastName.value[0]]
      else if Truthy(firstName) then Take(firstName.value, 2)
      else Take(email, 2);
    ToUpperIdempotent(source);
    ToUpper(source)
  }

  /** A last name on its own is ignored: without a first name the initials come from the e-mail address. */
  lemma LoneLastNameIgnored(firstName: Option<string>, lastName: Option<string>, email: string)
    requires !Truthy(firstName)
    ensures Initials(firstName, lastName, email) == Initials(None, None, email)
  {
  }

  /** A person with a first name gets initials that do not depend on the e-mail address. */
  lemma NamedInitialsIgnoreEmail(firstName: Option<string>, lastName: Option<string>, email: string, other: string)
    requires Truthy(firstName)
    ensures Initials(firstName, lastName, email) == Initials(firstName, lastName, other)
  {
  }

  /** `[firstName, lastName].filter(Boolean).join(" ") || email`. */
  function DisplayName(firstName: Option<string>, lastName: Option<string>, email: string): (r: string)
    ensures !Truthy(firstName) && !Truthy(lastName) ==> r == email
    ensures Truthy(firstName) || Truthy(lastName) ==> r != "" && r == FullName(firstName, lastName)
  {
    var fullName := FullName(firstName, lastName);
    if fullName != "" then fullName else email
  }

  /** The display name begins with the first name and ends with the last name whenever they are set. */
  lemma DisplayNameShowsNames(firstName: Option<string>, lastName: Option<string>, email: string)
    ensures Truthy(firstName) ==> firstName.value <= DisplayName(firstName, lastName, email)
    ensures Truthy(lastName) ==> var r := DisplayName(firstName, lastName, email);
      |lastName.value| <= |r| && r[|r| - |lastName.value|..] == lastName.value
  {
  }
}
