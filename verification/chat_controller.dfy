/** The chat turn handler `sendMessage` (Backend/src/controllers/chat.controller.js):
    validation, find-or-create of the conversation for (user, agent), the
    user turn, the generated reply and the assistant turn. */
module ChatController {
  import opened Wrappers
  import opened Schema
  import opened EmotionService
  import opened Provider
  import GeminiService

  /** The request body: `{ agentId, message }`; an absent or empty field is falsy. */
  datatype ChatBody = ChatBody(agentId: Option<Id>, message: Option<string>)

  /** The JSON answer of a turn: the reply and the detector's whole result. */
  datatype ChatReply = ChatReply(reply: string, emotion: EmotionResult)

  /** `Chat.findOne({ userId, agentId })`: the first conversation of the pair. */
  function FindConversation(cs: seq<Conversation>, userId: Id, agentId: Id): (r: Option<nat>)
    ensures r.Some? ==> r.value < |cs| && cs[r.value].userId == userId && cs[r.value].agentId == agentId
    ensures r.None? ==> forall k :: 0 <= k < |cs| ==> !(cs[k].userId == userId && cs[k].agentId == agentId)
  {
    if |cs| == 0 then None
    else if cs[0].userId == userId && cs[0].agentId == agentId then Some(0)
    else match FindConversation(cs[1..], userId, agentId)
      case None => None
      case Some(k) => Some(k + 1)
  }

  /** The conversation of the pair, reused if it exists, otherwise created with
      no messages and appended. Returns the collection and its position. */
  function FindOrCreate(cs: seq<Conversation>, userId: Id, agentId: Id): (r: (seq<Conversation>, nat))
    ensures r.1 < |r.0| && r.0[r.1].userId == userId && r.0[r.1].agentId == agentId
    ensures FindConversation(cs, userId, agentId).Some? ==> r.0 == cs && r.1 == FindConversation(cs, userId, agentId).value
    ensures FindConversation(cs, userId, agentId).None? ==> r.0 == cs + [NewConversation(userId, agentId)] && r.1 == |cs|
  {
    match FindConversation(cs, userId, agentId)
    case Some(k) => (cs, k)
    case None => (cs + [NewConversation(userId, agentId)], |cs|)
  }

  /** A stored message as the generator reads it. */
  function TurnOf(m: Message): Turn {
    Turn(RoleName(m.role), m.content)
  }

  function Turns(ms: seq<Message>): (ts: seq<Turn>)
    ensures |ts| == |ms| && forall i :: 0 <= i < |ms| ==> ts[i] == TurnOf(ms[i])
  {
    seq(|ms|, i requires 0 <= i < |ms| => TurnOf(ms[i]))
  }

  /** `emotionData.emotion || "neutral"`. */
  function StoredLabel(d: EmotionResult): string {
    if LabelName(d.emotion) == "" then "neutral" else LabelName(d.emotion)
  }

  /** The messages a conversation holds before the turn: its own, or none when
      it is about to be created. */
  function PriorMessages(cs: seq<Conversation>, userId: Id, agentId: Id): seq<Message> {
    match FindConversation(cs, userId, agentId)
    case Some(k) => cs[k].messages
    case None => []
  }

  /** The user turn pushed before the reply is generated. */
  function UserTurn(message: string): Message {
    Message(UserRole, message, Detect(message).emotion)
  }

  /** The reply the generator gives for this turn: it sees the agent's prompt,
      the conversation including the new user turn, and the stored label. */
  function TurnReply(prompt: string, prior: seq<Message>, message: string,
                     send: GeminiService.GeminiRequest -> Completion): string
  {
    GeminiService.GetGeminiReply(Some(prompt), Turns(prior + [UserTurn(message)]), Some(StoredLabel(Detect(message))), send)
  }

  /** `sendMessage` for the authenticated user `userId`. Saving validates the
      assistant turn: an empty reply fails the `required` check, so the turn
      answers 500 and only a newly created conversation remains. */
  function SendMessage(db: Db, userId: Id, body: ChatBody, send: GeminiService.GeminiRequest -> Completion): (out: Handled<ChatReply>)
    ensures body.message.None? || body.message.value == "" ==> out == Handled(db, Error(400, "Message is required"))
    ensures body.message.Some? && body.message.value != "" && body.agentId.None? ==>
              out == Handled(db, Error(400, "Agent ID is required"))
    ensures body.message.Some? && body.message.value != "" && body.agentId.Some? && FindAgent(db.agents, body.agentId.value).None? ==>
              out == Handled(db, Error(404, "Agent not found"))
    ensures out.db.users == db.users && out.db.agents == db.agents
    ensures out.response.Ok? ==> out.response.status == 200 && out.response.value.emotion == Detect(body.message.value)
  {
    if body.message.None? || body.message.value == "" then Handled(db, Error(400, "Message is required"))
    else if body.agentId.None? then Handled(db, Error(400, "Agent ID is required"))
    else
      var agentId := body.agentId.value;
      match FindAgent(db.agents, agentId)
      case None => Handled(db, Error(404, "Agent not found"))
      case Some(a) =>
        var message := body.message.value;
        var emotionData := Detect(message);
        var stored := StoredLabel(emotionData);
        var found := FindOrCreate(db.conversations, userId, agentId);
        var cs := found.0;
        var k := found.1;
        var withUser := cs[k].messages + [UserTurn(message)];
        var reply := TurnReply(db.agents[a].prompt, cs[k].messages, message, send);
        var created := Db(db.users, db.agents, cs);
        match ValidateMessage(MessageInput(Some("assistant"), Some(reply), Some(stored)))
        case None => Handled(created, Error(500, "Internal server error"))
        case Some(assistant) =>
          var saved := cs[k].(messages := withUser + [assistant]);
          Handled(Db(db.users, db.agents, cs[k := saved]), Ok(200, ChatReply(reply, emotionData)))
  }

  // ---------------------------------------------------------------- properties

  /** The stored label is the detector's label: a label name is never empty, so
      the "neutral" default never applies, and the name is one the schema accepts. */
  lemma StoredLabelIsDetected(d: EmotionResult)
    ensures StoredLabel(d) == LabelName(d.emotion)
    ensures ParseLabel(StoredLabel(d)) == Some(d.emotion)
  {
    LabelRoundTrip(d.emotion, "");
  }

  /** The generator's history ends with the user turn just pushed, after the
      persona turn and every earlier message. */
  lemma HistoryEndsWithUserTurn(prompt: string, prior: seq<Message>, message: string)
    ensures var q := GeminiService.BuildRequest(Some(prompt), Turns(prior + [UserTurn(message)]), Some(StoredLabel(Detect(message))));
            && |q.history| == |prior| + 2
            && q.history[|prior| + 1] == GeminiService.Content("user", [message])
            && forall i :: 0 <= i < |prior| ==> q.history[i + 1].parts == [prior[i].content]
  {
    var ts := Turns(prior + [UserTurn(message)]);
    assert ts[|prior|] == Turn("user", message);
    forall i | 0 <= i < |prior|
      ensures ts[i].content == prior[i].content
    {
      assert (prior + [UserTurn(message)])[i] == prior[i];
    }
  }

  /** A turn on an existing agent with a non-empty reply appends exactly two
      messages to the pair's conversation, the user's words then the reply,
      both with the detected label; the reply is the one generated from the
      history that includes the user's words; every other conversation is
      unchanged, and the response carries the stored reply. */
  lemma TurnAppendsTwo(db: Db, userId: Id, body: ChatBody, send: GeminiService.GeminiRequest -> Completion)
    requires body.message.Some? && body.message.value != "" && body.agentId.Some?
    requires FindAgent(db.agents, body.agentId.value).Some?
    requires TurnReply(db.agents[FindAgent(db.agents, body.agentId.value).value].prompt,
                       PriorMessages(db.conversations, userId, body.agentId.value), body.message.value, send) != ""
    ensures var out := SendMessage(db, userId, body, send);
            var message := body.message.value;
            var agentId := body.agentId.value;
            var reply := TurnReply(db.agents[FindAgent(db.agents, agentId).value].prompt,
                                   PriorMessages(db.conversations, userId, agentId), message, send);
            var l := Detect(message).emotion;
            var k := FindOrCreate(db.conversations, userId, agentId).1;
            && out.response == Ok(200, ChatReply(reply, Detect(message)))
            && k < |out.db.conversations|
            && out.db.conversations[k].userId == userId && out.db.conversations[k].agentId == agentId
            && out.db.conversations[k].messages
               == PriorMessages(db.conversations, userId, agentId) + [Message(UserRole, message, l), Message(AssistantRole, reply, l)]
            && (forall j :: 0 <= j < |db.conversations| && j != k ==> out.db.conversations[j] == db.conversations[j])
            && |out.db.conversations| == |FindOrCreate(db.conversations, userId, agentId).0|
  {
    var message := body.message.value;
    var l := Detect(message).emotion;
    StoredLabelIsDetected(Detect(message));
    LabelRoundTrip(l, "");
  }

  /** An empty reply fails validation on save: the answer is 500 and the store
      keeps only the find-or-create step (a new, empty conversation if there
      was none). */
  lemma EmptyReplyFails(db: Db, userId: Id, body: ChatBody, send: GeminiService.GeminiRequest -> Completion)
    requires body.message.Some? && body.message.value != "" && body.agentId.Some?
    requires FindAgent(db.agents, body.agentId.value).Some?
    requires TurnReply(db.agents[FindAgent(db.agents, body.agentId.value).value].prompt,
                       PriorMessages(db.conversations, userId, body.agentId.value), body.message.value, send) == ""
    ensures var out := SendMessage(db, userId, body, send);
            && out.response == Error(500, "Internal server error")
            && out.db.conversations == FindOrCreate(db.conversations, userId, body.agentId.value).0
  {
  }

  /** Find-or-create keeps at most one conversation per (user, agent) pair. */
  lemma {:induction false} FindOrCreateKeepsPairsUnique(cs: seq<Conversation>, userId: Id, agentId: Id)
    requires OneConversationPerPair(cs)
    ensures OneConversationPerPair(FindOrCreate(cs, userId, agentId).0)
  {
    if FindConversation(cs, userId, agentId).None? {
      var r := cs + [NewConversation(userId, agentId)];
      forall i, j | 0 <= i < j < |r|
        ensures (r[i].userId, r[i].agentId) != (r[j].userId, r[j].agentId)
      {
        if j == |cs| {
          assert r[i] == cs[i];
        }
      }
    }
  }

  /** Every turn keeps the store's invariants, in particular at most one
      conversation per (user, agent) pair. */
  lemma SendMessageKeepsValid(db: Db, userId: Id, body: ChatBody, send: GeminiService.GeminiRequest -> Completion)
    requires Valid(db)
    ensures Valid(SendMessage(db, userId, body, send).db)
  {
    if body.message.Some? && body.message.value != "" && body.agentId.Some? && FindAgent(db.agents, body.agentId.value).Some? {
      var agentId := body.agentId.value;
      var found := FindOrCreate(db.conversations, userId, agentId);
      FindOrCreateKeepsPairsUnique(db.conversations, userId, agentId);
      var cs := found.0;
      var out := SendMessage(db, userId, body, send).db.conversations;
      assert |out| == |cs|;
      assert forall j :: 0 <= j < |cs| ==> out[j].userId == cs[j].userId && out[j].agentId == cs[j].agentId;
    }
  }
}
