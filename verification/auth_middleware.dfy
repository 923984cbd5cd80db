/** The authentication gate `isAuth` (Backend/src/middleware/auth.middleware.js):
    where the token comes from, and the three ways to be refused. JWT
    verification is an oracle from token to the user id it carries. */
module AuthMiddleware {
  import opened Wrappers
  import opened Schema
  import opened Text

  /** `req.cookies.jwt || req.headers.authorization?.split(" ")[1]`: a
      non-empty cookie wins; otherwise the second space-separated word of the
      header, absent when the header is absent or has no space. */
  function TokenOf(cookie: Option<string>, authorization: Option<string>): Option<string> {
    if cookie.Some? && cookie.value != "" then cookie
    else if authorization.None? then None
    else
      var words := Split(authorization.value, ' ');
      if |words| > 1 then Some(words[1]) else None
  }

  /** The gate's outcome: go on with the user read without its password, or
      answer 401, clearing the `jwt` cookie in one case. */
  datatype AuthOutcome = Proceed(user: UserView) | Reject(message: string, clearCookie: bool)

  /** `isAuth`. `verify` is `jwt.verify` followed by reading `userId`: `None`
      when it throws. Every refusal answers 401. */
  function IsAuth(users: seq<User>, cookie: Option<string>, authorization: Option<string>,
                  verify: string -> Option<Id>): (r: AuthOutcome)
    ensures var token := TokenOf(cookie, authorization);
            && (token.None? || token.value == "" ==> r == Reject("No token provided", false))
            && (token.Some? && token.value != "" && verify(token.value).None? ==> r == Reject("Invalid or expired token", false))
            && (token.Some? && token.value != "" && verify(token.value).Some? ==>
                  match FindUser(users, verify(token.value).value)
                  case None => r == Reject("Session invalid. Please login again.", true)
                  case Some(k) => r == Proceed(WithoutPassword(users[k])))
  {
    var token := TokenOf(cookie, authorization);
    if token.None? || token.value == "" then Reject("No token provided", false)
    else match verify(token.value)
      case None => Reject("Invalid or expired token", false)
      case Some(id) =>
        match FindUser(users, id)
        case None => Reject("Session invalid. Please login again.", true)
        case Some(k) => Proceed(WithoutPassword(users[k]))
  }

  // ---------------------------------------------------------------- properties

  /** The token source: the cookie when it is non-empty, and otherwise, for a
      header "<scheme> <token>", the token after the first space. */
  lemma TokenPrecedence(cookie: Option<string>, scheme: string, token: string)
    ensures cookie.Some? && cookie.value != "" ==> TokenOf(cookie, Some(scheme + " " + token)) == cookie
    ensures ' ' !in scheme && ' ' !in token && (cookie.None? || cookie.value == "") ==>
              TokenOf(cookie, Some(scheme + " " + token)) == Some(token)
    ensures cookie.None? || cookie.value == "" ==> TokenOf(cookie, None) == None
  {
    if ' ' !in scheme && ' ' !in token {
      SplitPlain(token, ' ');
      SplitAround(scheme, token, ' ');
      assert scheme + " " + token == scheme + [' '] + token;
    }
  }

  /** A header without a space yields no token. */
  lemma NoSpaceNoToken(header: string)
    requires ' ' !in header
    ensures TokenOf(None, Some(header)) == None
  {
    SplitPlain(header, ' ');
  }

  /** `next` runs only for a token that verifies to the id of a stored user,
      and the user handed on is that user without the password; the cookie is
      cleared only when the token verifies but its user is gone. */
  lemma ProceedOnlyWithUser(users: seq<User>, cookie: Option<string>, authorization: Option<string>,
                            verify: string -> Option<Id>)
    ensures var r := IsAuth(users, cookie, authorization, verify);
            var token := TokenOf(cookie, authorization);
            && (r.Proceed? ==>
                  && token.Some? && token.value != "" && verify(token.value).Some?
                  && exists k :: 0 <= k < |users| && users[k].id == verify(token.value).value && r.user == WithoutPassword(users[k]))
            && (r.Reject? && r.clearCookie <==>
                  token.Some? && token.value != "" && verify(token.value).Some?
                  && forall k :: 0 <= k < |users| ==> users[k].id != verify(token.value).value)
  {
    var r := IsAuth(users, cookie, authorization, verify);
    var token := TokenOf(cookie, authorization);
    if r.Proceed? {
      var k := FindUser(users, verify(token.value).value).value;
      assert users[k].id == verify(token.value).value && r.user == WithoutPassword(users[k]);
    }
  }
}
