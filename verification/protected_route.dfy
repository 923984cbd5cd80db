/** The route guard (frontend/src/components/ProtectedRoute.jsx). */
module ProtectedRoute {
  import opened Wrappers
  import opened AuthContext

  /** What the guard does: render the children or redirect. */
  datatype Decision = Render | Redirect(path: string)

  /** The guard for the session flags and the route's `requiredRole` (absent or
      empty means no requirement). */
  function Guard(isAuthenticated: bool, requiredRole: Option<string>, userRole: Option<string>): Decision {
    if !isAuthenticated then Redirect("/auth")
    else if requiredRole.Some? && requiredRole.value != "" && userRole != Some(requiredRole.value) then
      if userRole == Some("admin") then Redirect("/admin")
      else if userRole == Some("user") then Redirect("/dashboard")
      else Redirect("/")
    else Render
  }

  /** The decision table: unauthenticated users go to /auth whatever the roles;
      the children render exactly for an authenticated user with no role
      requirement or the required role; a mismatch sends admins to /admin,
      users to /dashboard and anyone else to /; an authenticated user is never
      sent to /auth. */
  lemma GuardTable(isAuthenticated: bool, requiredRole: Option<string>, userRole: Option<string>)
    ensures var d := Guard(isAuthenticated, requiredRole, userRole);
            && (!isAuthenticated ==> d == Redirect("/auth"))
            && (d == Render <==> isAuthenticated && (requiredRole.None? || requiredRole.value == "" || userRole == requiredRole))
            && (isAuthenticated ==> d != Redirect("/auth"))
            && (d.Redirect? && isAuthenticated ==>
                  d.path == (if userRole == Some("admin") then "/admin" else if userRole == Some("user") then "/dashboard" else "/"))
  {
  }

  /** Used with the context's flags, the guard renders exactly for a signed-in
      user whose role meets the requirement. */
  lemma GuardWithContext(s: AuthState, requiredRole: Option<string>)
    ensures Guard(AuthContext.IsAuthenticated(s), requiredRole, UserRole(s)) == Render <==>
              s.authUser.Some? &&
              (requiredRole.None? || requiredRole.value == "" || s.authUser.value.role == requiredRole.value)
  {
  }
}
