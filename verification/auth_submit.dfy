/** The sign-in / sign-up form submission (frontend/src/pages/auth/useAuthSubmit.js):
    client-side validation order, the endpoint and payload chosen by mode, and
    the loading and error state after the request. */
module AuthSubmit {
  import opened Wrappers

  /** The form's fields; an absent field is "". */
  datatype AuthForm = AuthForm(email: string, password: string, fullName: string, confirmPassword: string)

  /** The JSON body posted: login sends two fields, every other mode three. */
  datatype Payload = LoginPayload(email: string, password: string)
                   | SignupPayload(fullName: string, email: string, password: string)

  datatype AuthRequest = AuthRequest(endpoint: string, payload: Payload)

  /** What the request yields: a thrown `fetch`, or a response with its `ok`
      flag and parsed body (None when the body does not parse; the message is
      "" when the body has none). */
  datatype FetchResult = Unreachable | Answer(ok: bool, message: Option<string>)

  /** The hook's state. */
  datatype SubmitState = SubmitState(loading: bool, error: string)

  /** The state after a submission, the request sent if any, and the route navigated to if any. */
  datatype Submitted = Submitted(state: SubmitState, sent: Option<AuthRequest>, navigateTo: Option<string>)

  const LoginUrl: string := "http://localhost:5000/api/auth/login"
  const SignupUrl: string := "http://localhost:5000/api/auth/signup"
  const NetworkMessage: string :=
    "Cannot connect to server. Please ensure backend is running on port 5000 and frontend is on port 5173."

  /** The client-side checks, in order: the first failing check's message. */
  function Validate(mode: string, f: AuthForm): Option<string> {
    if f.email == "" || f.password == "" then Some("Email and password are required")
    else if mode == "register" && f.fullName == "" then Some("Full name is required")
    else if mode == "register" && f.password != f.confirmPassword then Some("Passwords do not match")
    else None
  }

  /** The endpoint and payload for a mode. */
  function BuildRequest(mode: string, f: AuthForm): (q: AuthRequest)
    ensures q.endpoint == LoginUrl <==> mode == "login"
    ensures q.endpoint == SignupUrl <==> mode != "login"
    ensures q.payload.LoginPayload? <==> mode == "login"
    ensures q.payload.email == f.email && q.payload.password == f.password
    ensures q.payload.SignupPayload? ==> q.payload.fullName == f.fullName
  {
    if mode == "login" then AuthRequest(LoginUrl, LoginPayload(f.email, f.password))
    else AuthRequest(SignupUrl, SignupPayload(f.fullName, f.email, f.password))
  }

  /** `submitAuth(mode, formData)`; `fetch` stands for the request and the
      parsing of its body. */
  function SubmitAuth(s: SubmitState, mode: string, f: AuthForm, fetch: AuthRequest -> FetchResult): (r: Submitted)
    ensures s.loading ==> r == Submitted(s, None, None)
    ensures r.navigateTo.Some? ==> r.navigateTo.value == "/" && r.sent.Some? && r.state.error == ""
  {
    if s.loading then Submitted(s, None, None)
    else match Validate(mode, f)
      case Some(message) => Submitted(s.(error := message), None, None)
      case None =>
        var q := BuildRequest(mode, f);
        match fetch(q)
        case Unreachable => Submitted(SubmitState(false, NetworkMessage), Some(q), None)
        case Answer(ok, body) =>
          if body.None? then Submitted(SubmitState(false, "Server response invalid"), Some(q), None)
          else if !ok then
            Submitted(SubmitState(false, if body.value != "" then body.value else "Authentication failed"), Some(q), None)
          else Submitted(SubmitState(false, ""), Some(q), Some("/"))
  }

  // ---------------------------------------------------------------- properties

  /** The validation order: a missing email or password is reported first in
      every mode; only register mode then requires a full name and then a
      matching confirmation; a failed check sends nothing and leaves loading as it was. */
  lemma ValidationOrder(s: SubmitState, mode: string, f: AuthForm, fetch: AuthRequest -> FetchResult)
    requires !s.loading
    ensures var r := SubmitAuth(s, mode, f, fetch);
            && (f.email == "" || f.password == "" ==> r == Submitted(s.(error := "Email and password are required"), None, None))
            && (f.email != "" && f.password != "" && mode == "register" && f.fullName == "" ==>
                  r == Submitted(s.(error := "Full name is required"), None, None))
            && (f.email != "" && f.password != "" && mode == "register" && f.fullName != "" && f.password != f.confirmPassword ==>
                  r == Submitted(s.(error := "Passwords do not match"), None, None))
            && (r.sent.Some? <==> f.email != "" && f.password != "" &&
                                   (mode == "register" ==> f.fullName != "" && f.password == f.confirmPassword))
  {
  }

  /** The request sent is the mode's request; the confirmation is never part
      of it, so two forms differing only there send the same request. */
  lemma ConfirmationNeverSent(s: SubmitState, mode: string, f: AuthForm, confirm: string, fetch: AuthRequest -> FetchResult)
    ensures SubmitAuth(s, mode, f, fetch).sent.Some? ==> SubmitAuth(s, mode, f, fetch).sent == Some(BuildRequest(mode, f))
    ensures BuildRequest(mode, f.(confirmPassword := confirm)) == BuildRequest(mode, f)
  {
  }

  /** Loading is false after every submission that started with it false, and
      the error is the server's message or the fixed defaults. */
  lemma LoadingSettles(s: SubmitState, mode: string, f: AuthForm, fetch: AuthRequest -> FetchResult)
    requires !s.loading
    ensures var r := SubmitAuth(s, mode, f, fetch);
            && !r.state.loading
            && (r.sent.Some? ==>
                  match fetch(r.sent.value)
                  case Unreachable => r.state.error == NetworkMessage && r.navigateTo.None?
                  case Answer(ok, body) =>
                    && (body.None? ==> r.state.error == "Server response invalid" && r.navigateTo.None?)
                    && (body.Some? && !ok ==> r.state.error == (if body.value != "" then body.value else "Authentication failed") && r.navigateTo.None?)
                    && (body.Some? && ok ==> r.state.error == "" && r.navigateTo == Some("/")))
  {
  }
}
