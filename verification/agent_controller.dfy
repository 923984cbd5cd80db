/** Agent creation and listing (Backend/src/controllers/agent.controller.js):
    forced ownership on create, and the public-or-own visibility filter. */
module AgentController {
  import opened Wrappers
  import opened Schema
  import opened Seqs

  /** `req.user.role === "admin" ? "admin" : "user"`. */
  function CreatorTypeOf(role: string): string {
    if role == "admin" then "admin" else "user"
  }

  /** `{ ...req.body, createdBy, createdByType }`: the body with the two
      ownership fields written last, so whatever the body said is overwritten. */
  function OwnedBody(body: AgentInput, requester: UserView): (input: AgentInput)
    ensures input.createdBy == Some(requester.id)
    ensures input.createdByType == Some(CreatorTypeOf(requester.role))
    ensures input.(createdBy := body.createdBy, createdByType := body.createdByType) == body
  {
    body.(createdBy := Some(requester.id), createdByType := Some(CreatorTypeOf(requester.role)))
  }

  /** `createAgent` for the authenticated `requester`. The new agent keeps a
      body `_id`, which the spread passes through, and otherwise gets an id no
      existing agent has. A value the schema rejects (an unknown
      preferredLength) or a body `_id` some agent already has (the unique
      index on `_id`) makes `Agent.create` throw, which answers 500. */
  function CreateAgent(db: Db, requester: UserView, body: AgentInput): (out: Handled<Agent>)
    ensures body.name.None? || body.name.value == "" || body.prompt.None? || body.prompt.value == "" ==>
              out == Handled(db, Error(400, "Name and prompt are required"))
    ensures out.response.Error? ==> out.db == db
    ensures out.response.Ok? ==>
              && out.response.status == 200
              && out.db == db.(agents := db.agents + [out.response.value])
              && out.response.value.id !in AgentIds(db.agents)
              && (body.id.Some? ==> out.response.value.id == body.id.value)
    ensures out.response.Error? && out.response.status == 500 <==>
              && body.name.Some? && body.name.value != "" && body.prompt.Some? && body.prompt.value != ""
              && ((body.preferredLength.Some? && body.preferredLength.value !in {"small", "medium", "long"})
                  || (body.id.Some? && body.id.value in AgentIds(db.agents)))
  {
    if body.name.None? || body.name.value == "" || body.prompt.None? || body.prompt.value == "" then
      Handled(db, Error(400, "Name and prompt are required"))
    else
      match ValidateAgent(OwnedBody(body, requester), body.id.GetOr(FreshId(AgentIds(db.agents))))
      case None => Handled(db, Error(500, "Internal server error"))
      case Some(agent) =>
        if agent.id in AgentIds(db.agents) then Handled(db, Error(500, "Internal server error"))
        else Handled(db.(agents := db.agents + [agent]), Ok(200, agent))
  }

  /** The filter `{ $or: [{ isPublic: true }, { createdBy: userId }] }`. */
  function VisibleTo(userId: Id): Agent -> bool {
    (a: Agent) => a.isPublic || a.createdBy == userId
  }

  /** `getAgents`: the agents visible to `userId`, in store order. */
  function GetAgents(db: Db, userId: Id): (r: seq<Agent>)
    ensures forall a :: a in r <==> a in db.agents && (a.isPublic || a.createdBy == userId)
  {
    Filter(db.agents, VisibleTo(userId))
  }

  // ---------------------------------------------------------------- properties

  /** A successful creation is owned by the requester whatever the body said,
      is an admin agent exactly when the requester is an admin, and copies
      every other field of the body, defaults filling the gaps. */
  lemma CreateAgentOwnership(db: Db, requester: UserView, body: AgentInput)
    ensures var out := CreateAgent(db, requester, body);
            out.response.Ok? ==>
              var a := out.response.value;
              && a.createdBy == requester.id
              && (a.createdByType == AdminCreator <==> requester.role == "admin")
              && a.name == body.name.value && a.prompt == body.prompt.value
              && a.description == body.description.GetOr("")
              && a.icon == body.icon.GetOr(DefaultIcon) && a.color == body.color.GetOr(DefaultColor)
              && a.isDefault == body.isDefault.GetOr(false)
              && a.isCustom == body.isCustom.GetOr(false)
              && a.isPublic == body.isPublic.GetOr(false)
              && LengthName(a.preferredLength) == body.preferredLength.GetOr("medium")
  {
    var out := CreateAgent(db, requester, body);
    if out.response.Ok? {
      var a := out.response.value;
      CreatorTypeRoundTrip(a.createdByType, CreatorTypeOf(requester.role));
    }
  }

  /** Creation keeps agent ids unique. */
  lemma CreateAgentKeepsValid(db: Db, requester: UserView, body: AgentInput)
    requires Valid(db)
    ensures Valid(CreateAgent(db, requester, body).db)
  {
    var out := CreateAgent(db, requester, body);
    if out.response.Ok? {
      var ids := AgentIds(db.agents);
      var agents := out.db.agents;
      forall i, j | 0 <= i < j < |agents|
        ensures agents[i].id != agents[j].id
      {
        if j == |db.agents| {
          assert ids[i] == agents[i].id;
        }
      }
    }
  }

  /** The listing is the visible agents in store order: a subsequence of the
      store that keeps every public agent and every agent of the requester. */
  lemma GetAgentsOrder(db: Db, userId: Id)
    ensures IsSubsequence(GetAgents(db, userId), db.agents)
    ensures forall a :: a in db.agents && a.isPublic ==> a in GetAgents(db, userId)
    ensures forall a :: a in db.agents && a.createdBy == userId ==> a in GetAgents(db, userId)
    ensures forall k :: 0 <= k < |GetAgents(db, userId)| ==>
              GetAgents(db, userId)[k].isPublic || GetAgents(db, userId)[k].createdBy == userId
  {
    FilterIsSubsequence(db.agents, VisibleTo(userId));
  }
}
