/**
 * The sign-in page: pick a role, then enter the shared password. A role with a
 * user and the password `123456` lands on that role's portal; anything else
 * shows an error and stays on the page.
 */
module Login {

  import opened Wrappers
  import opened Types
  import opened Lookup
  import Strings
  import Fixtures
  import Sidebar

  const NoRoleMessage := "Something went wrong. Please go back and select your role."
  const WrongPasswordMessage := "Invalid password."
  const SharedPassword := "123456"

  /** What a press of the login button leads to. */
  datatype Attempt = NoRoleSelected | Welcome(user: User, path: string) | WrongPassword

  /** `handleLogin`'s decision for the current role and password. */
  function AttemptOf(users: seq<User>, selected: Option<UserRole>, password: string): (a: Attempt)
    ensures a.NoRoleSelected? <==> selected.None?
    ensures a.Welcome? <==> selected.Some? && UserByRole(users, selected.value).Some? && password == SharedPassword
    ensures a.Welcome? ==> a.user in users && a.user.role == selected.value
    ensures a.Welcome? ==> a.path == "/" + Strings.Lower(RoleName(selected.value))
  {
    match selected
    case None => NoRoleSelected
    case Some(role) =>
      match UserByRole(users, role)
      case Some(u) => if password == SharedPassword then Welcome(u, "/" + Strings.Lower(RoleName(u.role))) else WrongPassword
      case None => WrongPassword
  }

  class LoginPage {
    const users: seq<User>
    var selectedRole: Option<UserRole>
    var password: string
    var error: string

    constructor(users: seq<User>)
      ensures this.users == users && selectedRole == None && password == "" && error == ""
    {
      this.users := users;
      selectedRole := None;
      password := "";
      error := "";
    }

    /** `handleRoleSelect`: the role is chosen, and error and password are cleared. */
    method HandleRoleSelect(role: UserRole)
      modifies this
      ensures selectedRole == Some(role) && error == "" && password == ""
    {
      selectedRole := Some(role);
      error := "";
      password := "";
    }

    /** Typing in the password field. */
    method SetPassword(p: string)
      modifies this
      ensures password == p && selectedRole == old(selectedRole) && error == old(error)
    {
      password := p;
    }

    /**
     * `handleLogin`: the role and password stay as they are; the error is set
     * on failure and cleared on success, and only success navigates.
     */
    method HandleLogin() returns (navigateTo: Option<string>)
      modifies this
      ensures selectedRole == old(selectedRole) && password == old(password)
      ensures var a := AttemptOf(users, old(selectedRole), old(password));
        && (a.NoRoleSelected? ==> navigateTo == None && error == NoRoleMessage)
        && (a.WrongPassword? ==> navigateTo == None && error == WrongPasswordMessage)
        && (a.Welcome? ==> navigateTo == Some(a.path) && error == "")
    {
      error := "";
      if selectedRole.None? {
        error := NoRoleMessage;
        return None;
      }
      var role := selectedRole.value;
      var user := UserByRole(users, role);
      if user.Some? && password == SharedPassword {
        navigateTo := Some("/" + Strings.Lower(RoleName(user.value.role)));
      } else {
        error := WrongPasswordMessage;
        navigateTo := None;
      }
    }

    /** `handleGoBack`: back to the role choice with nothing remembered. */
    method HandleGoBack()
      modifies this
      ensures selectedRole == None && error == "" && password == ""
    {
      selectedRole := None;
      error := "";
      password := "";
    }
  }

  /**
   * With the shipped users, every role signs in with exactly the shared
   * password, and lands on the path whose sidebar shows that role's portal.
   */
  lemma ShippedUsersLandOnOwnPortal(r: UserRole, password: string)
    ensures AttemptOf(Fixtures.users, Some(r), password).Welcome? <==> password == SharedPassword
    ensures var a := AttemptOf(Fixtures.users, Some(r), password);
      a.Welcome? ==> a.path == "/" + Sidebar.Slug(r) && Sidebar.ParseSlug(Sidebar.RoleOf(a.path)) == Some(r)
  {
    Fixtures.RolesUnique();
    Sidebar.SlugIsLowerRoleName(r);
    Sidebar.RoleOfPortalPath(r, "");
    Sidebar.ParseSlugExact(Sidebar.Slug(r), r);
  }

  /** A wrong password never navigates, whatever the users and the role. */
  lemma WrongPasswordStays(users: seq<User>, r: UserRole, password: string)
    requires password != SharedPassword
    ensures AttemptOf(users, Some(r), password) == WrongPassword
  {
  }
}
