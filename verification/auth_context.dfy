/** The authentication context (frontend/src/context/AuthContext.jsx): the
    session user, the checking flag and the transitions that change them. */
module AuthContext {
  import opened Wrappers
  import opened Schema
  import opened AuthStorage

  /** The context's state: `authUser` (null as None) and `isCheckingAuth`. */
  datatype AuthState = AuthState(authUser: Option<UserView>, isCheckingAuth: bool)

  /** What the check-auth request yields: an ok response with its parsed body
      (None when the body does not parse), a non-ok response, or a thrown error. */
  datatype CheckResponse = OkBody(body: Option<UserView>) | NotOk | Unreachable

  /** The state on mount. */
  const Initial: AuthState := AuthState(None, true)

  /** `checkAuth`: the body on an ok response, null otherwise; checking ends on every path. */
  function CheckAuth(s: AuthState, response: CheckResponse): (r: AuthState)
    ensures !r.isCheckingAuth
    ensures r.authUser.Some? <==> response.OkBody? && response.body.Some?
    ensures r.authUser.Some? ==> r.authUser == response.body
  {
    match response
    case OkBody(body) => AuthState(body, false)
    case NotOk => AuthState(None, false)
    case Unreachable => AuthState(None, false)
  }

  /** `login(user)`. */
  function Login(s: AuthState, user: UserView): (r: AuthState)
    ensures r.authUser == Some(user) && r.isCheckingAuth == s.isCheckingAuth
  {
    s.(authUser := Some(user))
  }

  /** `logout`: forgets the user and removes the two stored auth entries. */
  function Logout(s: AuthState, st: Storage): (r: (AuthState, Storage))
    ensures r.0.authUser.None? && r.0.isCheckingAuth == s.isCheckingAuth
    ensures forall k :: k in r.1 <==> k in st && k != UserKey && k != RoleKey
    ensures forall k :: k in r.1 ==> r.1[k] == st[k]
  {
    (s.(authUser := None), st - {UserKey, RoleKey})
  }

  /** `isAuthenticated: !!authUser`. */
  predicate IsAuthenticated(s: AuthState) {
    s.authUser.Some?
  }

  /** `userRole: authUser?.role || null`. */
  function UserRole(s: AuthState): (r: Option<string>)
    ensures r.Some? <==> s.authUser.Some? && s.authUser.value.role != ""
    ensures r.Some? ==> r.value == s.authUser.value.role
  {
    if s.authUser.Some? && s.authUser.value.role != "" then Some(s.authUser.value.role) else None
  }

  // ---------------------------------------------------------------- properties

  /** Before the check no one is signed in; a role is only ever reported for a
      signed-in user. */
  lemma FlagsAgree(s: AuthState)
    ensures !IsAuthenticated(Initial) && Initial.isCheckingAuth && UserRole(Initial).None?
    ensures UserRole(s).Some? ==> IsAuthenticated(s)
  {
  }

  /** Logging out is the storage helper's clearing, and afterwards nothing
      reports a signed-in user, in the context or in storage. */
  lemma LogoutClearsEverything(s: AuthState, st: Storage, parse: string -> Option<UserView>)
    ensures var r := Logout(s, st);
            && r.1 == ClearAuthData(st)
            && !IsAuthenticated(r.0) && UserRole(r.0).None?
            && !AuthStorage.IsAuthenticated(r.1, parse)
  {
    ClearAuthDataExact(st, parse);
  }

  /** Logging in after logging out signs the user in again, whatever happened before. */
  lemma LoginAfterLogout(s: AuthState, st: Storage, user: UserView)
    ensures Login(Logout(s, st).0, user) == Login(s, user)
  {
  }
}
