/** The dashboard and profile handlers (Backend/src/controllers/user.controller.js). */
module UserController {
  import opened Wrappers
  import opened Schema
  import opened Seqs

  // ---------------------------------------------------------------- dashboard

  /** An agent read with `.select('name description icon color isDefault isCustom')`;
      the id always comes along. */
  datatype AgentSummary = AgentSummary(id: Id, name: string, description: string, icon: string, color: string,
                                       isDefault: bool, isCustom: bool)

  function Summary(a: Agent): AgentSummary {
    AgentSummary(a.id, a.name, a.description, a.icon, a.color, a.isDefault, a.isCustom)
  }

  /** The JSON answer of `getDashboardStats`. */
  datatype Stats = Stats(totalChats: nat, defaultAgents: nat, customAgents: nat, agents: seq<AgentSummary>)

  /** The query `{ userId }` on conversations. */
  function ChatOf(userId: Id): Conversation -> bool {
    (c: Conversation) => c.userId == userId
  }

  /** The query `{ isDefault: true }`. */
  function IsDefaultAgent(): Agent -> bool {
    (a: Agent) => a.isDefault
  }

  /** The query `{ createdBy: userId, isCustom: true }`. */
  function CustomOf(userId: Id): Agent -> bool {
    (a: Agent) => a.createdBy == userId && a.isCustom
  }

  /** The query `{ $or: [{ isDefault: true }, { createdBy: userId }] }`. */
  function DefaultOrOwn(userId: Id): Agent -> bool {
    (a: Agent) => a.isDefault || a.createdBy == userId
  }

  /** The agents listed on the dashboard: the default ones and the user's own, in store order. */
  function DashboardAgents(db: Db, userId: Id): (r: seq<Agent>)
    ensures forall a :: a in r <==> a in db.agents && (a.isDefault || a.createdBy == userId)
  {
    Filter(db.agents, DefaultOrOwn(userId))
  }

  /** `getDashboardStats` for the authenticated user `userId`: the number of the
      user's conversations, of default agents (whoever created them), of the
      user's custom agents, and the listed agents' summaries in store order. */
  function GetDashboardStats(db: Db, userId: Id): (r: Stats)
    ensures r.totalChats <= |db.conversations| && r.defaultAgents <= |db.agents| && r.customAgents <= |db.agents|
    ensures r.totalChats == |set i | 0 <= i < |db.conversations| && db.conversations[i].userId == userId|
    ensures r.defaultAgents == |set i | 0 <= i < |db.agents| && db.agents[i].isDefault|
    ensures r.customAgents == |set i | 0 <= i < |db.agents| && db.agents[i].createdBy == userId && db.agents[i].isCustom|
    ensures |r.agents| == |DashboardAgents(db, userId)|
    ensures forall k :: 0 <= k < |r.agents| ==> r.agents[k] == Summary(DashboardAgents(db, userId)[k])
    ensures forall k :: 0 <= k < |r.agents| ==> r.agents[k].isDefault || DashboardAgents(db, userId)[k].createdBy == userId
  {
    var listed := DashboardAgents(db, userId);
    assert Positions(db.conversations, ChatOf(userId))
        == set i | 0 <= i < |db.conversations| && db.conversations[i].userId == userId;
    assert Positions(db.agents, IsDefaultAgent()) == set i | 0 <= i < |db.agents| && db.agents[i].isDefault;
    assert Positions(db.agents, CustomOf(userId))
        == set i | 0 <= i < |db.agents| && db.agents[i].createdBy == userId && db.agents[i].isCustom;
    Stats(
      CountWhere(db.conversations, ChatOf(userId)),
      CountWhere(db.agents, IsDefaultAgent()),
      CountWhere(db.agents, CustomOf(userId)),
      seq(|listed|, k requires 0 <= k < |listed| => Summary(listed[k])))
  }

  /** Both agent counts are bounded by the listing: every default agent and
      every custom agent of the user is listed. */
  lemma DashboardCountsBounded(db: Db, userId: Id)
    ensures var r := GetDashboardStats(db, userId);
            r.defaultAgents <= |r.agents| && r.customAgents <= |r.agents|
  {
    CountNarrower(db.agents, DefaultOrOwn(userId), IsDefaultAgent());
    CountNarrower(db.agents, DefaultOrOwn(userId), CustomOf(userId));
  }

  /** The default count is global: it is the same for every user, and only the
      chat count, the custom count and the listing depend on who asks. */
  lemma DefaultCountIsGlobal(db: Db, u: Id, v: Id)
    ensures GetDashboardStats(db, u).defaultAgents == GetDashboardStats(db, v).defaultAgents
  {
  }

  /** The agents the user has a conversation with. */
  ghost function Partners(cs: seq<Conversation>, userId: Id): set<Id> {
    set c | c in cs && c.userId == userId :: c.agentId
  }

  lemma PartnersCons(cs: seq<Conversation>, userId: Id)
    requires |cs| > 0
    ensures Partners(cs, userId) == (if cs[0].userId == userId then {cs[0].agentId} else {}) + Partners(cs[1..], userId)
  {
    assert forall c :: c in cs <==> c == cs[0] || c in cs[1..] by {
      assert cs == [cs[0]] + cs[1..];
    }
  }

  /** The tail of a store with one conversation per pair has none of the head's pair. */
  lemma TailPairs(cs: seq<Conversation>)
    requires |cs| > 0 && OneConversationPerPair(cs)
    ensures OneConversationPerPair(cs[1..])
    ensures cs[0].agentId !in Partners(cs[1..], cs[0].userId)
  {
    var t := cs[1..];
    forall i, j | 0 <= i < j < |t|
      ensures (t[i].userId, t[i].agentId) != (t[j].userId, t[j].agentId)
    {
      assert t[i] == cs[i + 1] && t[j] == cs[j + 1];
    }
    forall c | c in t && c.userId == cs[0].userId
      ensures c.agentId != cs[0].agentId
    {
      var j :| 0 <= j < |t| && t[j] == c;
      assert cs[j + 1] == c;
    }
  }

  /** The chat count is the number of the user's conversations; in a store with
      one conversation per pair, that is the number of agents the user has talked to. */
  lemma {:induction false} TotalChatsCountsAgents(cs: seq<Conversation>, userId: Id)
    requires OneConversationPerPair(cs)
    ensures CountWhere(cs, ChatOf(userId)) == |Partners(cs, userId)|
  {
    if |cs| > 0 {
      TailPairs(cs);
      TotalChatsCountsAgents(cs[1..], userId);
      PartnersCons(cs, userId);
    }
  }

  /** So the dashboard's chat count is the number of agents the user has talked to. */
  lemma DashboardChatsAreAgents(db: Db, userId: Id)
    requires OneConversationPerPair(db.conversations)
    ensures GetDashboardStats(db, userId).totalChats == |Partners(db.conversations, userId)|
  {
    TotalChatsCountsAgents(db.conversations, userId);
  }

  // ---------------------------------------------------------------- profile

  /** The body of a profile update as the profile form sends it: five strings,
      the two lists still as comma-separated text. Only the first two fields are
      read; the others stand for whatever else the body carries. */
  datatype ProfileBody = ProfileBody(fullName: Option<string>, email: Option<string>,
                                     dob: Option<string>, interests: Option<string>,
                                     personalityTraits: Option<string>)

  /** The JSON answer of a successful update. */
  datatype ProfileUpdated = ProfileUpdated(message: string, user: UserView)

  /** The unique email index: some user other than the one at `k` holds `email`. */
  predicate EmailTaken(users: seq<User>, k: nat, email: string) {
    exists j :: 0 <= j < |users| && j != k && users[j].email == email
  }

  /** `User.findByIdAndUpdate(userId, { fullName, email })`: an absent field is
      dropped from the update and keeps its stored value. */
  function Updated(u: User, body: ProfileBody): User {
    u.(fullName := body.fullName.GetOr(u.fullName), email := body.email.GetOr(u.email))
  }

  /** `updateProfile` for the authenticated user `userId`. An email another user
      already holds violates the unique index; the update throws and answers 500. */
  function UpdateProfile(db: Db, userId: Id, body: ProfileBody): (out: Handled<ProfileUpdated>)
    ensures FindUser(db.users, userId).None? ==> out == Handled(db, Error(404, "User not found"))
    ensures out.response.Error? ==> out.db == db
    ensures out.response.Error? && out.response.status == 500 <==>
              FindUser(db.users, userId).Some? &&
              EmailTaken(db.users, FindUser(db.users, userId).value, body.email.GetOr(db.users[FindUser(db.users, userId).value].email))
    ensures out.response.Ok? ==> out.response.status == 200 && out.response.value.message == "Profile updated successfully"
    ensures out.db.agents == db.agents && out.db.conversations == db.conversations
  {
    match FindUser(db.users, userId)
    case None => Handled(db, Error(404, "User not found"))
    case Some(k) =>
      var updated := Updated(db.users[k], body);
      if EmailTaken(db.users, k, updated.email) then Handled(db, Error(500, "Internal server error"))
      else Handled(db.(users := db.users[k := updated]),
                   Ok(200, ProfileUpdated("Profile updated successfully", WithoutPassword(updated))))
  }

  /** A successful update rewrites the user's fullName and email (each only if
      sent) and nothing else: the other fields, the other users and the other
      collections are unchanged, and the answer is the stored record without
      its password. */
  lemma UpdateProfileTouchesTwoFields(db: Db, userId: Id, body: ProfileBody)
    ensures var out := UpdateProfile(db, userId, body);
            out.response.Ok? ==>
              var k := FindUser(db.users, userId).value;
              var before := db.users[k];
              var after := out.db.users[k];
              && |out.db.users| == |db.users|
              && (forall j :: 0 <= j < |db.users| && j != k ==> out.db.users[j] == db.users[j])
              && after.id == userId
              && after.fullName == body.fullName.GetOr(before.fullName)
              && after.email == body.email.GetOr(before.email)
              && after.password == before.password && after.role == before.role && after.dob == before.dob
              && after.interests == before.interests && after.personalityTraits == before.personalityTraits
              && out.response.value.user == WithoutPassword(after)
  {
  }

  /** Whatever else the body carries (dob, interests, traits) has no effect. */
  lemma UpdateProfileIgnoresOtherFields(db: Db, userId: Id, b1: ProfileBody, b2: ProfileBody)
    requires b1.fullName == b2.fullName && b1.email == b2.email
    ensures UpdateProfile(db, userId, b1) == UpdateProfile(db, userId, b2)
  {
  }

  /** An update keeps user ids and emails unique. */
  lemma UpdateProfileKeepsValid(db: Db, userId: Id, body: ProfileBody)
    requires Valid(db)
    ensures Valid(UpdateProfile(db, userId, body).db)
  {
    var out := UpdateProfile(db, userId, body);
    if out.response.Ok? {
      var k := FindUser(db.users, userId).value;
      var users := out.db.users;
      forall i, j | 0 <= i < j < |users|
        ensures users[i].email != users[j].email
      {
        if i == k {
          assert !EmailTaken(db.users, k, users[k].email);
          assert db.users[j].email != users[k].email;
        } else if j == k {
          assert !EmailTaken(db.users, k, users[k].email);
          assert db.users[i].email != users[k].email;
        }
      }
    }
  }
}
