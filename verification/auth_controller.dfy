/** The account handlers (Backend/src/controllers/auth.controller.js): signup
    and login validation, the email format, and the two data-deletion
    handlers. Password hashing and comparison are oracles. */
module AuthController {
  import opened Wrappers
  import opened Schema
  import opened Seqs
  import opened Text

  // ---------------------------------------------------------------- email format

  /** A character the class `[^\s@]` accepts. */
  predicate Plain(c: char) {
    !IsWhitespace(c) && c != '@'
  }

  predicate AllPlain(s: string) {
    forall k :: 0 <= k < |s| ==> Plain(s[k])
  }

  /** `s` is `a@b.c` with each of `a`, `b`, `c` a non-empty run of `[^\s@]`. */
  predicate EmailParts(s: string, a: string, b: string, c: string) {
    && s == a + "@" + b + "." + c
    && |a| > 0 && |b| > 0 && |c| > 0
    && AllPlain(a) && AllPlain(b) && AllPlain(c)
  }

  /** The `@` at `i` and the `.` at `j` split `s` into the three runs. */
  predicate SplitsAt(s: string, i: int, j: int) {
    0 < i < j < |s| && EmailParts(s, s[..i], s[i + 1..j], s[j + 1..])
  }

  /** `/^[^\s@]+@[^\s@]+\.[^\s@]+$/.test(s)`: some choice of the `@` and the
      `.` splits the text into the three runs. */
  predicate ValidEmail(s: string) {
    exists i, j :: 0 < i < j < |s| && SplitsAt(s, i, j)
  }

  /** The regular expression matches exactly when the text has the shape
      `a@b.c` for some runs `a`, `b`, `c`. */
  lemma ValidEmailIsRegex(s: string)
    ensures ValidEmail(s) <==> exists a, b, c :: EmailParts(s, a, b, c)
  {
    if a, b, c :| EmailParts(s, a, b, c) {
      var i := |a|;
      var j := |a| + 1 + |b|;
      assert s[..i] == a && s[i + 1..j] == b && s[j + 1..] == c;
      assert SplitsAt(s, i, j);
    }
  }

  /** The format in words: no white space, exactly one '@' with something
      before it, and after it a '.' that is neither the first character of
      the domain nor the last character of the text. */
  predicate EmailInWords(s: string) {
    && (forall k :: 0 <= k < |s| ==> !IsWhitespace(s[k]))
    && exists i :: 0 < i < |s| && s[i] == '@'
         && (forall k :: 0 <= k < |s| && s[k] == '@' ==> k == i)
         && (exists j :: i + 1 < j < |s| - 1 && s[j] == '.')
  }

  /** Every address the expression accepts has the shape in words. */
  lemma ValidEmailInWords(s: string)
    requires ValidEmail(s)
    ensures EmailInWords(s)
  {
    var i, j :| 0 < i < j < |s| && SplitsAt(s, i, j);
    var a, b, c := s[..i], s[i + 1..j], s[j + 1..];
    forall k | 0 <= k < |s| && k != i && k != j
      ensures Plain(s[k])
    {
      if k < i { assert s[k] == a[k]; }
      else if k < j { assert s[k] == b[k - i - 1]; }
      else { assert s[k] == c[k - j - 1]; }
    }
    assert s[i] == '@' && s[j] == '.' && |c| > 0;
  }

  /** Every address of the shape in words is accepted. */
  lemma InWordsValidEmail(s: string)
    requires EmailInWords(s)
    ensures ValidEmail(s)
  {
    var i :| 0 < i < |s| && s[i] == '@'
             && (forall k :: 0 <= k < |s| && s[k] == '@' ==> k == i)
             && (exists j :: i + 1 < j < |s| - 1 && s[j] == '.');
    var j :| i + 1 < j < |s| - 1 && s[j] == '.';
    var a, b, c := s[..i], s[i + 1..j], s[j + 1..];
    assert s == a + "@" + b + "." + c;
    forall k | 0 <= k < |a| ensures Plain(a[k]) { assert a[k] == s[k]; }
    forall k | 0 <= k < |b| ensures Plain(b[k]) { assert b[k] == s[k + i + 1]; }
    forall k | 0 <= k < |c| ensures Plain(c[k]) { assert c[k] == s[k + j + 1]; }
    assert SplitsAt(s, i, j);
  }

  /** The regular expression accepts exactly the addresses of the shape in words. */
  lemma ValidEmailMeaning(s: string)
    ensures ValidEmail(s) <==> EmailInWords(s)
  {
    if ValidEmail(s) { ValidEmailInWords(s); }
    if EmailInWords(s) { InWordsValidEmail(s); }
  }

  // ---------------------------------------------------------------- signup and login

  /** The signup body; an absent or empty field is falsy. */
  datatype SignupBody = SignupBody(fullName: Option<string>, email: Option<string>, password: Option<string>)

  /** The 201 body: the new user's id, name and email, never the password. */
  datatype SignupView = SignupView(id: Id, fullName: string, email: string)

  predicate Given(x: Option<string>) {
    x.Some? && x.value != ""
  }

  /** `signup`. `hash` is bcrypt's salted hash. The checks run in the order
      presence, length (in UTF-16 code units), format, uniqueness. */
  function Signup(db: Db, body: SignupBody, hash: string -> string): (out: Handled<SignupView>)
    ensures !(Given(body.fullName) && Given(body.email) && Given(body.password)) ==>
              out == Handled(db, Error(400, "All fields are required"))
    ensures Given(body.fullName) && Given(body.email) && Given(body.password) && Utf16Length(body.password.value) < 6 ==>
              out == Handled(db, Error(400, "Password must be at least 6 characters"))
    ensures out.response.Error? ==> out.db == db && out.response.status == 400
    ensures out.response.Ok? ==>
              && out.response.status == 201
              && ValidEmail(body.email.value) && Utf16Length(body.password.value) >= 6
              && out.response.value == SignupView(out.response.value.id, body.fullName.value, body.email.value)
              && out.db == db.(users := db.users + [NewUser(out.response.value.id, body.fullName.value, body.email.value,
                                                             hash(body.password.value))])
              && out.response.value.id !in UserIds(db.users)
  {
    if !(Given(body.fullName) && Given(body.email) && Given(body.password)) then
      Handled(db, Error(400, "All fields are required"))
    else if Utf16Length(body.password.value) < 6 then
      Handled(db, Error(400, "Password must be at least 6 characters"))
    else if !ValidEmail(body.email.value) then
      Handled(db, Error(400, "Invalid email format"))
    else if FindUserByEmail(db.users, body.email.value).Some? then
      Handled(db, Error(400, "Email already exists"))
    else
      var id := FreshId(UserIds(db.users));
      var u := NewUser(id, body.fullName.value, body.email.value, hash(body.password.value));
      Handled(db.(users := db.users + [u]), Ok(201, SignupView(id, u.fullName, u.email)))
  }

  /** The login body. */
  datatype LoginBody = LoginBody(email: Option<string>, password: Option<string>)

  /** The 200 body of a login. */
  datatype LoginView = LoginView(id: Id, fullName: string, email: string, role: string)

  /** `login`. `matches(password, stored)` is bcrypt's comparison. The store
      does not change. */
  function Login(db: Db, body: LoginBody, matches: (string, string) -> bool): (r: Response<LoginView>)
    ensures !(Given(body.email) && Given(body.password)) ==> r == Error(400, "Email and password are required")
    ensures r.Ok? ==>
              && r.status == 200
              && exists k :: 0 <= k < |db.users| && db.users[k].email == body.email.value
                   && matches(body.password.value, db.users[k].password)
                   && r.value == LoginView(db.users[k].id, db.users[k].fullName, db.users[k].email, db.users[k].role)
  {
    if !(Given(body.email) && Given(body.password)) then Error(400, "Email and password are required")
    else match FindUserByEmail(db.users, body.email.value)
      case None => Error(400, "Invalid credentials")
      case Some(k) =>
        var u := db.users[k];
        if !matches(body.password.value, u.password) then Error(400, "Invalid credentials")
        else Ok(200, LoginView(u.id, u.fullName, u.email, u.role))
  }

  /** Signup keeps ids and emails unique. */
  lemma SignupKeepsValid(db: Db, body: SignupBody, hash: string -> string)
    requires Valid(db)
    ensures Valid(Signup(db, body, hash).db)
  {
    var out := Signup(db, body, hash);
    if out.response.Ok? {
      var users := out.db.users;
      var ids := UserIds(db.users);
      assert FindUserByEmail(db.users, body.email.value).None?;
      forall i, j | 0 <= i < j < |users|
        ensures users[i].id != users[j].id && users[i].email != users[j].email
      {
        if j == |db.users| {
          assert ids[i] == users[i].id;
        }
      }
    }
  }

  /** Signup refuses a malformed email and an email already registered, and a
      new account is possible only for a well-formed, unused email. */
  lemma SignupEmailChecks(db: Db, body: SignupBody, hash: string -> string)
    requires Given(body.fullName) && Given(body.email) && Given(body.password) && Utf16Length(body.password.value) >= 6
    ensures !ValidEmail(body.email.value) ==> Signup(db, body, hash).response == Error(400, "Invalid email format")
    ensures ValidEmail(body.email.value) && (exists k :: 0 <= k < |db.users| && db.users[k].email == body.email.value) ==>
              Signup(db, body, hash).response == Error(400, "Email already exists")
    ensures Signup(db, body, hash).response.Ok? <==>
              ValidEmail(body.email.value) && forall k :: 0 <= k < |db.users| ==> db.users[k].email != body.email.value
  {
  }

  /** An unknown email and a wrong password are indistinguishable. */
  lemma LoginHidesWhichFailed(db: Db, body: LoginBody, matches: (string, string) -> bool)
    requires Given(body.email) && Given(body.password)
    ensures (forall k :: 0 <= k < |db.users| ==> db.users[k].email != body.email.value) ==>
              Login(db, body, matches) == Error(400, "Invalid credentials")
    ensures UniqueEmails(db.users) ==>
              forall k :: 0 <= k < |db.users| && db.users[k].email == body.email.value
                          && !matches(body.password.value, db.users[k].password) ==>
                Login(db, body, matches) == Error(400, "Invalid credentials")
  {
  }

  /** Correct credentials log in: with unique emails, a stored user whose
      password matches is answered with its public fields. */
  lemma LoginSucceeds(db: Db, body: LoginBody, matches: (string, string) -> bool, k: nat)
    requires UniqueEmails(db.users)
    requires Given(body.email) && Given(body.password)
    requires k < |db.users| && db.users[k].email == body.email.value
    requires matches(body.password.value, db.users[k].password)
    ensures Login(db, body, matches) == Ok(200, LoginView(db.users[k].id, db.users[k].fullName, db.users[k].email, db.users[k].role))
  {
  }

  // ---------------------------------------------------------------- deleting data

  /** The answer of `deleteAccountData`: its message, whether the `jwt`
      cookie is cleared (`res.cookie("jwt", "", { maxAge: 0 })`, which signs
      the client out), and the counts of what went. */
  datatype Deleted = Deleted(message: string, clearCookie: bool, conversations: nat, agents: nat)

  /** The answer of `clearAgentChat`: its message and the count of what went. */
  datatype Cleared = Cleared(message: string, conversations: nat)

  function OfUser(userId: Id): Conversation -> bool {
    (c: Conversation) => c.userId == userId
  }

  function NotOfUser(userId: Id): Conversation -> bool {
    (c: Conversation) => c.userId != userId
  }

  function CreatedBy(userId: Id): Agent -> bool {
    (a: Agent) => a.createdBy == userId
  }

  function NotCreatedBy(userId: Id): Agent -> bool {
    (a: Agent) => a.createdBy != userId
  }

  /** `deleteAccountData`: removes the user's conversations and the agents
      the user created, clears the session cookie, and reports how many of
      each went. The user record itself stays. */
  function DeleteAccountData(db: Db, userId: Id): (out: Handled<Deleted>)
    ensures out.db.users == db.users
    ensures forall c :: c in out.db.conversations <==> c in db.conversations && c.userId != userId
    ensures forall a :: a in out.db.agents <==> a in db.agents && a.createdBy != userId
    ensures out.response.Ok? && out.response.status == 200
    ensures out.response.value.message == "All account data deleted successfully"
    ensures out.response.value.clearCookie
    ensures out.response.value.conversations == CountWhere(db.conversations, OfUser(userId))
    ensures out.response.value.agents == CountWhere(db.agents, CreatedBy(userId))
  {
    Handled(
      Db(db.users, Filter(db.agents, NotCreatedBy(userId)), Filter(db.conversations, NotOfUser(userId))),
      Ok(200, Deleted("All account data deleted successfully", true,
                      CountWhere(db.conversations, OfUser(userId)), CountWhere(db.agents, CreatedBy(userId)))))
  }

  /** The two halves of a filter add up to the whole. */
  lemma {:induction false} FilterSplit<T(!new)>(s: seq<T>, p: T -> bool, q: T -> bool)
    requires forall x :: q(x) == !p(x)
    ensures |Filter(s, p)| + |Filter(s, q)| == |s|
  {
    if |s| > 0 {
      FilterSplit(s[1..], p, q);
    }
  }

  /** Nothing of anyone else is touched: the remaining data is everyone else's,
      in order, and the counts are exactly what went. */
  lemma DeleteAccountDataExact(db: Db, userId: Id)
    ensures var out := DeleteAccountData(db, userId);
            && IsSubsequence(out.db.conversations, db.conversations)
            && IsSubsequence(out.db.agents, db.agents)
            && |out.db.conversations| + out.response.value.conversations == |db.conversations|
            && |out.db.agents| + out.response.value.agents == |db.agents|
  {
    FilterIsSubsequence(db.conversations, NotOfUser(userId));
    FilterIsSubsequence(db.agents, NotCreatedBy(userId));
    FilterSplit(db.conversations, NotOfUser(userId), OfUser(userId));
    FilterSplit(db.agents, NotCreatedBy(userId), CreatedBy(userId));
  }

  function OfPair(userId: Id, agentId: Id): Conversation -> bool {
    (c: Conversation) => c.userId == userId && c.agentId == agentId
  }

  function NotOfPair(userId: Id, agentId: Id): Conversation -> bool {
    (c: Conversation) => !(c.userId == userId && c.agentId == agentId)
  }

  /** `clearAgentChat`: removes the user's conversations with one agent. */
  function ClearAgentChat(db: Db, userId: Id, agentId: Option<Id>): (out: Handled<Cleared>)
    ensures agentId.None? ==> out == Handled(db, Error(400, "Agent ID is required"))
    ensures out.db.users == db.users && out.db.agents == db.agents
    ensures agentId.Some? ==>
              && out.response == Ok(200, Cleared("Agent chat history cleared successfully",
                                                 CountWhere(db.conversations, OfPair(userId, agentId.value))))
              && forall c :: c in out.db.conversations <==>
                   c in db.conversations && !(c.userId == userId && c.agentId == agentId.value)
  {
    match agentId
    case None => Handled(db, Error(400, "Agent ID is required"))
    case Some(a) =>
      Handled(db.(conversations := Filter(db.conversations, NotOfPair(userId, a))),
              Ok(200, Cleared("Agent chat history cleared successfully", CountWhere(db.conversations, OfPair(userId, a)))))
  }

  /** With one conversation per pair, clearing removes at most one; the other
      agents' conversations stay in order. */
  lemma {:induction false} ClearAgentChatAtMostOne(db: Db, userId: Id, agentId: Id)
    requires OneConversationPerPair(db.conversations)
    ensures var out := ClearAgentChat(db, userId, Some(agentId));
            && out.response.value.conversations <= 1
            && IsSubsequence(out.db.conversations, db.conversations)
            && |out.db.conversations| + out.response.value.conversations == |db.conversations|
  {
    var cs := db.conversations;
    FilterIsSubsequence(cs, NotOfPair(userId, agentId));
    FilterSplit(cs, NotOfPair(userId, agentId), OfPair(userId, agentId));
    FilterNoDupsPair(cs, userId, agentId);
  }

  /** Under one conversation per pair, the pair's filter has no two entries. */
  lemma {:induction false} FilterNoDupsPair(cs: seq<Conversation>, userId: Id, agentId: Id)
    requires OneConversationPerPair(cs)
    ensures |Filter(cs, OfPair(userId, agentId))| <= 1
  {
    if |cs| > 0 {
      var t := cs[1..];
      assert OneConversationPerPair(t);
      FilterNoDupsPair(t, userId, agentId);
      if OfPair(userId, agentId)(cs[0]) {
        forall k | 0 <= k < |t|
          ensures !OfPair(userId, agentId)(t[k])
        {
          assert cs[k + 1] == t[k];
        }
        FilterNone(t, OfPair(userId, agentId));
      }
    }
  }
}
