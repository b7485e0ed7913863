/** The top bar: the heading and the user name shown next to the avatar. */
module TopBar {
  import opened Collections
  import opened Strings

  datatype User = User(email: Option<string>, companyName: Option<string>)

  /** `user?.email?.split("@")[0]`: `None` when there is no user or no email. */
  function UserName(user: Option<User>): (r: Option<string>)
    ensures r.Some? <==> user.Some? && user.value.email.Some?
    ensures r.Some? ==>
              var email := user.value.email.value;
              '@' !in r.value && StartsWith(email, r.value) &&
              (|r.value| == |email| || email[|r.value|] == '@') &&
              ('@' !in email ==> r.value == email)
  {
    if user.Some? && user.value.email.Some? then Some(BeforeFirst(user.value.email.value, '@')) else None
  }

  /** The name is the whole local part: everything up to the first '@'. */
  lemma UserNameIsLocalPart(local: string, domain: string)
    requires '@' !in local
    ensures UserName(Some(User(Some(local + "@" + domain), None))) == Some(local)
  {
    var email := local + "@" + domain;
    var r := BeforeFirst(email, '@');
    assert email[|local|] == '@';
    assert email[..|local|] == local;
  }

  /** `user?.companyName || "Dashboard"` */
  function Heading(user: Option<User>): (r: string)
    ensures user.Some? && user.value.companyName.Some? && user.value.companyName.value != "" ==>
              r == user.value.companyName.value
    ensures !(user.Some? && user.value.companyName.Some? && user.value.companyName.value != "") ==>
              r == "Dashboard"
    ensures r != ""
  {
    if user.Some? && user.value.companyName.Some? && user.value.companyName.value != "" then
      user.value.companyName.value
    else "Dashboard"
  }
}
