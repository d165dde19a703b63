/**
 * The client's authentication store (frontend/app/stores/auth.ts): the
 * token, username, role and user id (each possibly null) and the
 * registration flag, with the actions that set and clear them.
 */
module ClientAuth {
  import opened Wrappers

  /** JavaScript truthiness of a nullable string: neither null nor empty. */
  predicate Truthy(s: Option<string>) {
    s.Some? && s.value != ""
  }

  const ADMIN := "admin"
  const COMPANY := "company"
  const STUDENT := "student"
  const VIEWER := "viewer"

  /** The payload of `setAuthData`; `userId` and `isRegistered` may be absent. */
  datatype AuthData = AuthData(
    token: string, username: string, role: string, userId: Option<string>, isRegistered: Option<bool>)

  /** How many of the four role flags a role value sets. */
  function RoleFlags(role: Option<string>): (n: nat)
    ensures n <= 1
    ensures n == 1 <==> role.Some? && role.value in {ADMIN, COMPANY, STUDENT, VIEWER}
  {
    (if role == Some(ADMIN) then 1 else 0) + (if role == Some(COMPANY) then 1 else 0)
    + (if role == Some(STUDENT) then 1 else 0) + (if role == Some(VIEWER) then 1 else 0)
  }

  class AuthStore {
    var token: Option<string>
    var username: Option<string>
    var role: Option<string>
    var userId: Option<string>
    var isRegistered: bool

    constructor ()
      ensures token.None? && username.None? && role.None? && userId.None? && !isRegistered
      ensures !IsAuthenticated()
    {
      token := None;
      username := None;
      role := None;
      userId := None;
      isRegistered := false;
    }

    /** `isAuthenticated`: `!!token`. */
    predicate IsAuthenticated()
      reads this
    {
      Truthy(token)
    }

    predicate IsAdmin() reads this { role == Some(ADMIN) }
    predicate IsCompany() reads this { role == Some(COMPANY) }
    predicate IsStudent() reads this { role == Some(STUDENT) }
    predicate IsViewer() reads this { role == Some(VIEWER) }

    /** At most one of the role predicates holds, whatever the stored role. */
    function RolesHeld(): (n: nat)
      reads this
      ensures n <= 1
      ensures n == (if IsAdmin() then 1 else 0) + (if IsCompany() then 1 else 0)
                   + (if IsStudent() then 1 else 0) + (if IsViewer() then 1 else 0)
    {
      RoleFlags(role)
    }

    /** `setAuthData`: a falsy `userId` keeps the old one, an absent `isRegistered` keeps the old flag. */
    method SetAuthData(data: AuthData)
      modifies this
      ensures token == Some(data.token) && username == Some(data.username) && role == Some(data.role)
      ensures userId == if Truthy(data.userId) then data.userId else old(userId)
      ensures isRegistered == if data.isRegistered.Some? then data.isRegistered.value else old(isRegistered)
      ensures IsAuthenticated() <==> data.token != ""
    {
      token := Some(data.token);
      username := Some(data.username);
      role := Some(data.role);
      if Truthy(data.userId) {
        userId := data.userId;
      }
      if data.isRegistered.Some? {
        isRegistered := data.isRegistered.value;
      }
    }

    /** `updateToken`: the token and nothing else. */
    method UpdateToken(newToken: string)
      modifies this
      ensures token == Some(newToken)
      ensures username == old(username) && role == old(role) && userId == old(userId)
      ensures isRegistered == old(isRegistered)
    {
      token := Some(newToken);
    }

    /** `setIsRegistered`. */
    method SetIsRegistered(value: bool)
      modifies this
      ensures isRegistered == value
      ensures token == old(token) && username == old(username) && role == old(role) && userId == old(userId)
    {
      isRegistered := value;
    }

    /** `logout`: every field null and the flag false, as after construction. */
    method Logout()
      modifies this
      ensures token.None? && username.None? && role.None? && userId.None? && !isRegistered
      ensures !IsAuthenticated() && RolesHeld() == 0
    {
      token := None;
      username := None;
      role := None;
      userId := None;
      isRegistered := false;
    }

    /** `clearAuthData`: the same as `logout`. */
    method ClearAuthData()
      modifies this
      ensures token.None? && username.None? && role.None? && userId.None? && !isRegistered
      ensures !IsAuthenticated() && RolesHeld() == 0
    {
      Logout();
    }
  }
}
