/**
 * The client's route guards (frontend/app/middleware/student.ts,
 * viewer.ts and student-register.ts). Each reads a token and a role, which
 * are null when absent, and lets the navigation pass, redirects it, or
 * throws a 403 error. On the server every guard lets the navigation pass.
 */
module RouteGuards {
  import opened Wrappers
  import opened ClientAuth

  datatype Decision = Pass | Redirect(path: string) | Forbidden

  /** The guard of the student pages: other signed-in roles go to their own start page. */
  function StudentGuard(onServer: bool, token: Option<string>, role: Option<string>): (d: Decision)
    ensures onServer ==> d == Pass
    ensures !onServer && !Truthy(token) ==> d == Redirect("/")
    ensures !onServer ==> (d == Pass <==> Truthy(token) && role == Some(STUDENT))
    ensures d != Forbidden
  {
    if onServer then Pass
    else if !Truthy(token) then Redirect("/")
    else if role != Some(STUDENT) then Redirect(StartPage(role))
    else Pass
  }

  /** The role-specific start page the student guard sends a signed-in non-student to. */
  function StartPage(role: Option<string>): string {
    if role == Some(COMPANY) then "/dashboard"
    else if role == Some(ADMIN) then "/admin/dashboard"
    else if role == Some(VIEWER) then "/jobs"
    else "/"
  }

  /** A signed-in user who is not a student is sent to the start page of the role. */
  lemma StudentGuardRedirectsHome(token: Option<string>, role: Option<string>)
    requires Truthy(token) && role != Some(STUDENT)
    ensures StudentGuard(false, token, role) == Redirect(StartPage(role))
    ensures StartPage(role) == "/" <==> RoleFlags(role) == 0
  {
  }

  /**
   * The guard of the viewer pages: an unknown or missing role is refused,
   * a student or company goes to the dashboard. The administrator and
   * fall-back redirects of the source come after a check that has already
   * refused those roles.
   */
  function ViewerGuard(onServer: bool, token: Option<string>, role: Option<string>): (d: Decision)
    ensures onServer ==> d == Pass
    ensures !onServer && !Truthy(token) ==> d == Redirect("/")
    ensures !onServer && Truthy(token) ==>
              (d == Forbidden <==> !(role.Some? && role.value in {VIEWER, STUDENT, COMPANY}))
    ensures !onServer ==> (d == Pass <==> Truthy(token) && role == Some(VIEWER))
    ensures d != Redirect("/admin/dashboard")
  {
    if onServer then Pass
    else if !Truthy(token) then Redirect("/")
    else if !Truthy(role) || role.value !in {VIEWER, STUDENT, COMPANY} then Forbidden
    else if role != Some(VIEWER) then
      if role == Some(COMPANY) || role == Some(STUDENT) then Redirect("/dashboard")
      else if role == Some(ADMIN) then (assert false; Redirect("/admin/dashboard"))
      else (assert false; Redirect("/"))
    else Pass
  }

  /** No signed-in role may open both the student pages and the viewer pages. */
  lemma StudentAndViewerPagesDisjoint(token: Option<string>, role: Option<string>)
    ensures !(StudentGuard(false, token, role) == Pass && ViewerGuard(false, token, role) == Pass)
    ensures Truthy(token) && role == Some(ADMIN) ==>
              StudentGuard(false, token, role) == Redirect("/admin/dashboard") && ViewerGuard(false, token, role) == Forbidden
  {
  }

  /** The student-registration guard: only a signed-in viewer not yet registered passes. */
  function StudentRegisterGuard(onServer: bool, token: Option<string>, role: Option<string>, isRegistered: bool): (d: Decision)
    ensures onServer ==> d == Pass
    ensures !onServer && !Truthy(token) ==> d == Redirect("/")
    ensures !onServer && Truthy(token) && role != Some(VIEWER) ==> d == Redirect("/dashboard")
    ensures !onServer ==> (d == Forbidden <==> Truthy(token) && role == Some(VIEWER) && isRegistered)
    ensures !onServer ==> (d == Pass <==> Truthy(token) && role == Some(VIEWER) && !isRegistered)
  {
    if onServer then Pass
    else if !Truthy(token) then Redirect("/")
    else if role != Some(VIEWER) then Redirect("/dashboard")
    else if isRegistered then Forbidden
    else Pass
  }

  /**
   * The registration guard reads the authentication store: after a logout
   * it sends the user to "/", and after signing in as an unregistered
   * viewer it lets the user through.
   */
  method GuardAfterLogout(store: AuthStore) returns (d: Decision)
    modifies store
    ensures d == Redirect("/")
  {
    store.Logout();
    d := StudentRegisterGuard(false, store.token, store.role, store.isRegistered);
  }

  method GuardAfterViewerSignIn(store: AuthStore, token: string, username: string) returns (d: Decision)
    requires token != ""
    modifies store
    ensures d == Pass
  {
    store.Logout();
    store.SetAuthData(AuthData(token, username, VIEWER, None, None));
    d := StudentRegisterGuard(false, store.token, store.role, store.isRegistered);
  }
}
