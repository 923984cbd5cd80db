/** The three Mongoose models (Backend/src/models): their enumerations, defaults
    and validation, and the in-memory store that replaces the database. */
module Schema {
  import opened Wrappers
  import opened Seqs

  /** Document ids (`ObjectId`), abstracted to naturals. */
  type Id = nat

  // ---------------------------------------------------------------- enums

  /** Message.role: `enum: ["user", "assistant"]`. */
  datatype Role = UserRole | AssistantRole

  function RoleName(r: Role): string {
    match r
    case UserRole => "user"
    case AssistantRole => "assistant"
  }

  /** Mongoose's enum check for a role string. */
  function ParseRole(s: string): (r: Option<Role>)
    ensures r.Some? <==> s in {"user", "assistant"}
  {
    if s == "user" then Some(UserRole)
    else if s == "assistant" then Some(AssistantRole)
    else None
  }

  /** Every role survives the round trip through its name, and only names parse. */
  lemma RoleRoundTrip(r: Role, s: string)
    ensures ParseRole(RoleName(r)) == Some(r)
    ensures ParseRole(s) == Some(r) ==> RoleName(r) == s
  {
  }

  /** The seven emotion labels of Message.emotion, in the detector's table order. */
  datatype Label = Happy | Sad | Lonely | Angry | Anxious | Confused | Neutral

  function LabelName(l: Label): (s: string)
    ensures |s| > 0
  {
    match l
    case Happy => "happy"
    case Sad => "sad"
    case Lonely => "lonely"
    case Angry => "angry"
    case Anxious => "anxious"
    case Confused => "confused"
    case Neutral => "neutral"
  }

  /** Mongoose's enum check for an emotion string. */
  function ParseLabel(s: string): (r: Option<Label>)
    ensures r.Some? <==> s in {"happy", "sad", "lonely", "angry", "anxious", "confused", "neutral"}
  {
    if s == "happy" then Some(Happy)
    else if s == "sad" then Some(Sad)
    else if s == "lonely" then Some(Lonely)
    else if s == "angry" then Some(Angry)
    else if s == "anxious" then Some(Anxious)
    else if s == "confused" then Some(Confused)
    else if s == "neutral" then Some(Neutral)
    else None
  }

  /** Every label survives the round trip through its name, and only names parse. */
  lemma LabelRoundTrip(l: Label, s: string)
    ensures ParseLabel(LabelName(l)) == Some(l)
    ensures ParseLabel(s) == Some(l) ==> LabelName(l) == s
  {
  }

  /** Agent.preferredLength: `enum: ["small", "medium", "long"]`. */
  datatype Length = Small | Medium | Long

  function LengthName(l: Length): string {
    match l
    case Small => "small"
    case Medium => "medium"
    case Long => "long"
  }

  function ParseLength(s: string): (r: Option<Length>)
    ensures r.Some? <==> s in {"small", "medium", "long"}
  {
    if s == "small" then Some(Small)
    else if s == "medium" then Some(Medium)
    else if s == "long" then Some(Long)
    else None
  }

  lemma LengthRoundTrip(l: Length, s: string)
    ensures ParseLength(LengthName(l)) == Some(l)
    ensures ParseLength(s) == Some(l) ==> LengthName(l) == s
  {
  }

  /** Agent.createdByType: `enum: ["admin", "user"]`. */
  datatype CreatorType = AdminCreator | UserCreator

  function CreatorTypeName(t: CreatorType): string {
    match t
    case AdminCreator => "admin"
    case UserCreator => "user"
  }

  function ParseCreatorType(s: string): (r: Option<CreatorType>)
    ensures r.Some? <==> s in {"admin", "user"}
  {
    if s == "admin" then Some(AdminCreator)
    else if s == "user" then Some(UserCreator)
    else None
  }

  lemma CreatorTypeRoundTrip(t: CreatorType, s: string)
    ensures ParseCreatorType(CreatorTypeName(t)) == Some(t)
    ensures ParseCreatorType(s) == Some(t) ==> CreatorTypeName(t) == s
  {
  }

  // ---------------------------------------------------------------- documents

  datatype Message = Message(role: Role, content: string, emotion: Label)

  datatype Conversation = Conversation(userId: Id, agentId: Id, messages: seq<Message>)

  datatype Agent = Agent(
    id: Id,
    name: string,
    description: string,
    prompt: string,
    icon: string,
    color: string,
    isDefault: bool,
    isCustom: bool,
    isPublic: bool,
    createdByType: CreatorType,
    createdBy: Id,
    preferredLength: Length)

  /** A user document. No field is required by the schema; an absent string
      field is represented by "". */
  datatype User = User(
    id: Id,
    fullName: string,
    email: string,
    password: string,
    role: string,
    dob: string,
    interests: seq<string>,
    personalityTraits: seq<string>)

  /** A user document read with `.select("-password")`. */
  datatype UserView = UserView(
    id: Id,
    fullName: string,
    email: string,
    role: string,
    dob: string,
    interests: seq<string>,
    personalityTraits: seq<string>)

  /** Drops the password and keeps every other field. */
  function WithoutPassword(u: User): (v: UserView)
    ensures v.id == u.id && v.fullName == u.fullName && v.email == u.email && v.role == u.role
    ensures v.dob == u.dob && v.interests == u.interests && v.personalityTraits == u.personalityTraits
  {
    UserView(u.id, u.fullName, u.email, u.role, u.dob, u.interests, u.personalityTraits)
  }

  // ---------------------------------------------------------------- validation and defaults

  /** A message sub-document as handed to Mongoose, before casting. */
  datatype MessageInput = MessageInput(role: Option<string>, content: Option<string>, emotion: Option<string>)

  /** Casting and validating a message: role required and in its enum, content
      required (Mongoose's `required` rejects the empty string), emotion in its
      enum with default "neutral". */
  function ValidateMessage(m: MessageInput): (r: Option<Message>)
    ensures r.Some? <==>
      && m.role.Some? && m.role.value in {"user", "assistant"}
      && m.content.Some? && m.content.value != ""
      && (m.emotion.None? || m.emotion.value in {"happy", "sad", "lonely", "angry", "anxious", "confused", "neutral"})
    ensures r.Some? ==> RoleName(r.value.role) == m.role.value && r.value.content == m.content.value
    ensures r.Some? && m.emotion.None? ==> r.value.emotion == Neutral
    ensures r.Some? && m.emotion.Some? ==> LabelName(r.value.emotion) == m.emotion.value
  {
    if m.role.None? || m.content.None? || m.content.value == "" then None
    else
      match ParseRole(m.role.value)
      case None => None
      case Some(role) =>
        if m.emotion.None? then Some(Message(role, m.content.value, Neutral))
        else
          match ParseLabel(m.emotion.value)
          case None => None
          case Some(l) => (LabelRoundTrip(l, m.emotion.value); RoleRoundTrip(role, m.role.value);
                           Some(Message(role, m.content.value, l)))
  }

  /** A new conversation as `Chat.create` builds it: both ids are required
      (the model always has them) and `messages` defaults to empty. */
  function NewConversation(userId: Id, agentId: Id): (c: Conversation)
    ensures c.userId == userId && c.agentId == agentId && |c.messages| == 0
  {
    Conversation(userId, agentId, [])
  }

  const DefaultIcon: string := "Bot"
  const DefaultColor: string := "from-blue-500 to-cyan-500"

  /** An agent document as handed to `Agent.create`, before casting. `id` is
      a body `_id`, which Mongoose keeps as the document's id. */
  datatype AgentInput = AgentInput(
    id: Option<Id>,
    name: Option<string>,
    description: Option<string>,
    prompt: Option<string>,
    icon: Option<string>,
    color: Option<string>,
    isDefault: Option<bool>,
    isCustom: Option<bool>,
    isPublic: Option<bool>,
    createdByType: Option<string>,
    createdBy: Option<Id>,
    preferredLength: Option<string>)

  /** Casting and validating an agent: name, prompt, createdByType and
      createdBy required; the enums checked; every other field defaulted. */
  function ValidateAgent(a: AgentInput, id: Id): (r: Option<Agent>)
    ensures r.Some? <==>
      && a.name.Some? && a.name.value != ""
      && a.prompt.Some? && a.prompt.value != ""
      && a.createdByType.Some? && a.createdByType.value in {"admin", "user"}
      && a.createdBy.Some?
      && (a.preferredLength.None? || a.preferredLength.value in {"small", "medium", "long"})
    ensures r.Some? ==>
      && r.value.id == id
      && r.value.name == a.name.value && r.value.prompt == a.prompt.value
      && r.value.description == a.description.GetOr("")
      && r.value.icon == a.icon.GetOr(DefaultIcon)
      && r.value.color == a.color.GetOr(DefaultColor)
      && r.value.isDefault == a.isDefault.GetOr(false)
      && r.value.isCustom == a.isCustom.GetOr(false)
      && r.value.isPublic == a.isPublic.GetOr(false)
      && CreatorTypeName(r.value.createdByType) == a.createdByType.value
      && r.value.createdBy == a.createdBy.value
      && LengthName(r.value.preferredLength) == a.preferredLength.GetOr("medium")
  {
    if a.name.None? || a.name.value == "" || a.prompt.None? || a.prompt.value == "" || a.createdBy.None? then None
    else if a.createdByType.None? || ParseCreatorType(a.createdByType.value).None? then None
    else if a.preferredLength.Some? && ParseLength(a.preferredLength.value).None? then None
    else
      var t := ParseCreatorType(a.createdByType.value).value;
      var len := if a.preferredLength.Some? then ParseLength(a.preferredLength.value).value else Medium;
      CreatorTypeRoundTrip(t, a.createdByType.value);
      LengthRoundTrip(len, a.preferredLength.GetOr("medium"));
      Some(Agent(id, a.name.value, a.description.GetOr(""), a.prompt.value,
                 a.icon.GetOr(DefaultIcon), a.color.GetOr(DefaultColor),
                 a.isDefault.GetOr(false), a.isCustom.GetOr(false), a.isPublic.GetOr(false),
                 t, a.createdBy.value, len))
  }

  /** `new User({fullName, email, password})`: role defaults to "user", the
      string lists to empty and dob is absent. */
  function NewUser(id: Id, fullName: string, email: string, password: string): (u: User)
    ensures u.id == id && u.fullName == fullName && u.email == email && u.password == password
    ensures u.role == "user" && u.dob == "" && u.interests == [] && u.personalityTraits == []
  {
    User(id, fullName, email, password, "user", "", [], [])
  }

  // ---------------------------------------------------------------- the store

  /** The database: one sequence per collection, in insertion order. */
  datatype Db = Db(users: seq<User>, agents: seq<Agent>, conversations: seq<Conversation>)

  /** What a handler leaves behind: the store after the request and the response sent. */
  datatype Handled<+T> = Handled(db: Db, response: Response<T>)

  predicate UniqueUserIds(users: seq<User>) {
    forall i, j :: 0 <= i < j < |users| ==> users[i].id != users[j].id
  }

  /** The unique index on `email`. */
  predicate UniqueEmails(users: seq<User>) {
    forall i, j :: 0 <= i < j < |users| ==> users[i].email != users[j].email
  }

  predicate UniqueAgentIds(agents: seq<Agent>) {
    forall i, j :: 0 <= i < j < |agents| ==> agents[i].id != agents[j].id
  }

  /** At most one conversation per (userId, agentId) pair. */
  predicate OneConversationPerPair(cs: seq<Conversation>) {
    forall i, j :: 0 <= i < j < |cs| ==> (cs[i].userId, cs[i].agentId) != (cs[j].userId, cs[j].agentId)
  }

  /** The invariants the handlers keep. */
  predicate Valid(db: Db) {
    && UniqueUserIds(db.users)
    && UniqueEmails(db.users)
    && UniqueAgentIds(db.agents)
    && OneConversationPerPair(db.conversations)
  }

  /** An id larger than every id in `ids`: the model's stand-in for a fresh `ObjectId`. */
  function FreshId(ids: seq<Id>): (r: Id)
    ensures forall k :: 0 <= k < |ids| ==> ids[k] < r
  {
    if |ids| == 0 then 0
    else
      var m := FreshId(ids[1..]);
      if ids[0] < m then m else ids[0] + 1
  }

  function UserIds(users: seq<User>): (ids: seq<Id>)
    ensures |ids| == |users| && forall k :: 0 <= k < |users| ==> ids[k] == users[k].id
  {
    seq(|users|, k requires 0 <= k < |users| => users[k].id)
  }

  function AgentIds(agents: seq<Agent>): (ids: seq<Id>)
    ensures |ids| == |agents| && forall k :: 0 <= k < |agents| ==> ids[k] == agents[k].id
  {
    seq(|agents|, k requires 0 <= k < |agents| => agents[k].id)
  }

  /** The position of the first key equal to `key`, if any: the search
      behind `findById` and `findOne`, run on one projected field. */
  function Find<K(==)>(keys: seq<K>, key: K): (r: Option<nat>)
    ensures r.Some? ==> r.value < |keys| && keys[r.value] == key
    ensures r.None? ==> forall k :: 0 <= k < |keys| ==> keys[k] != key
    ensures r.Some? ==> forall k :: 0 <= k < r.value ==> keys[k] != key
  {
    if key in keys then
      var i := IndexOf(keys, key);
      assert forall k :: 0 <= k < i ==> keys[..i][k] == keys[k];
      Some(i)
    else None
  }

  function UserEmails(users: seq<User>): (emails: seq<string>)
    ensures |emails| == |users| && forall k :: 0 <= k < |users| ==> emails[k] == users[k].email
  {
    seq(|users|, k requires 0 <= k < |users| => users[k].email)
  }

  /** `Model.findById`: the position of the document with this id, if any. */
  function FindUser(users: seq<User>, id: Id): (r: Option<nat>)
    ensures r.Some? ==> r.value < |users| && users[r.value].id == id
    ensures r.None? ==> forall k :: 0 <= k < |users| ==> users[k].id != id
    ensures r.Some? ==> forall k :: 0 <= k < r.value ==> users[k].id != id
  {
    Find(UserIds(users), id)
  }

  /** `User.findOne({ email })`: the first user with this email, if any. */
  function FindUserByEmail(users: seq<User>, email: string): (r: Option<nat>)
    ensures r.Some? ==> r.value < |users| && users[r.value].email == email
    ensures r.None? ==> forall k :: 0 <= k < |users| ==> users[k].email != email
    ensures r.Some? ==> forall k :: 0 <= k < r.value ==> users[k].email != email
  {
    Find(UserEmails(users), email)
  }

  function FindAgent(agents: seq<Agent>, id: Id): (r: Option<nat>)
    ensures r.Some? ==> r.value < |agents| && agents[r.value].id == id
    ensures r.None? ==> forall k :: 0 <= k < |agents| ==> agents[k].id != id
    ensures r.Some? ==> forall k :: 0 <= k < r.value ==> agents[k].id != id
  {
    Find(AgentIds(agents), id)
  }

  /** Removes the element at position `k`. */
  function RemoveAt<T>(s: seq<T>, k: nat): (r: seq<T>)
    requires k < |s|
    ensures |r| == |s| - 1
    ensures forall i :: 0 <= i < k ==> r[i] == s[i]
    ensures forall i :: k <= i < |r| ==> r[i] == s[i + 1]
  {
    s[..k] + s[k + 1..]
  }
}
