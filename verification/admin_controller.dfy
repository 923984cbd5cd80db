/** The admin handlers (Backend/src/controllers/admin.controller.js): user and
    agent listings, user deletion, and owner-only agent deletion. */
module AdminController {
  import opened Wrappers
  import opened Schema

  /** `getAllUsers`: every user with the password removed. */
  function GetAllUsers(db: Db): (r: seq<UserView>)
    ensures |r| == |db.users|
    ensures forall k :: 0 <= k < |r| ==> r[k] == WithoutPassword(db.users[k])
  {
    seq(|db.users|, k requires 0 <= k < |db.users| => WithoutPassword(db.users[k]))
  }

  /** `deleteUser`: removes the user with this id. Nothing else is touched; the
      user's agents and conversations stay. */
  function DeleteUser(db: Db, id: Id): (out: Handled<string>)
    ensures FindUser(db.users, id).None? ==> out == Handled(db, Error(404, "User not found"))
    ensures FindUser(db.users, id).Some? ==>
              && out.response == Ok(200, "User deleted")
              && out.db == db.(users := RemoveAt(db.users, FindUser(db.users, id).value))
  {
    match FindUser(db.users, id)
    case None => Handled(db, Error(404, "User not found"))
    case Some(k) => Handled(db.(users := RemoveAt(db.users, k)), Ok(200, "User deleted"))
  }

  /** `getAllAgents`: the agents, unfiltered. */
  function GetAllAgents(db: Db): (r: seq<Agent>)
    ensures r == db.agents
  {
    db.agents
  }

  /** `Agent.findOneAndDelete({ _id: id, createdBy: owner })`: the first agent
      matching both. */
  function FindOwnedAgent(agents: seq<Agent>, id: Id, owner: Id): (r: Option<nat>)
    ensures r.Some? ==> r.value < |agents| && agents[r.value].id == id && agents[r.value].createdBy == owner
    ensures r.None? ==> forall k :: 0 <= k < |agents| ==> !(agents[k].id == id && agents[k].createdBy == owner)
  {
    if |agents| == 0 then None
    else if agents[0].id == id && agents[0].createdBy == owner then Some(0)
    else match FindOwnedAgent(agents[1..], id, owner)
      case None => None
      case Some(k) => Some(k + 1)
  }

  /** The body of a successful agent deletion. */
  datatype AgentDeleted = AgentDeleted(message: string, agentId: Id)

  /** `deleteAgent` for the authenticated `requester`: only an agent the
      requester created can go; a missing agent and someone else's agent get
      the same 403. */
  function DeleteAgent(db: Db, requester: Id, id: Id): (out: Handled<AgentDeleted>)
    ensures out.response.Error? ==> out == Handled(db, Error(403, "You are not allowed to delete this agent"))
    ensures out.response.Ok? ==> out.response == Ok(200, AgentDeleted("Agent deleted successfully", id))
    ensures out.db.users == db.users && out.db.conversations == db.conversations
  {
    match FindOwnedAgent(db.agents, id, requester)
    case None => Handled(db, Error(403, "You are not allowed to delete this agent"))
    case Some(k) => Handled(db.(agents := RemoveAt(db.agents, k)), Ok(200, AgentDeleted("Agent deleted successfully", id)))
  }

  // ---------------------------------------------------------------- properties

  /** With unique ids, a deletion removes exactly the user with that id: every
      other user stays, in order. */
  lemma DeleteUserExact(db: Db, id: Id)
    requires UniqueUserIds(db.users)
    ensures var out := DeleteUser(db, id);
            && (out.response.Ok? <==> exists k :: 0 <= k < |db.users| && db.users[k].id == id)
            && (forall u :: u in out.db.users <==> u in db.users && u.id != id)
            && |out.db.users| == |db.users| - (if out.response.Ok? then 1 else 0)
  {
    var out := DeleteUser(db, id);
    match FindUser(db.users, id)
    case None =>
    case Some(k) =>
      var r := out.db.users;
      forall u
        ensures u in r <==> u in db.users && u.id != id
      {
        if u in r {
          var i :| 0 <= i < |r| && r[i] == u;
          if i < k { assert db.users[i] == u; } else { assert db.users[i + 1] == u; }
        }
        if u in db.users && u.id != id {
          var i :| 0 <= i < |db.users| && db.users[i] == u;
          assert i != k;
          if i < k { assert r[i] == u; } else { assert r[i - 1] == u; }
        }
      }
  }

  /** An agent is deleted exactly when it exists and belongs to the requester;
      then it alone goes and the rest stay in order. */
  lemma DeleteAgentOwnerOnly(db: Db, requester: Id, id: Id)
    requires UniqueAgentIds(db.agents)
    ensures var out := DeleteAgent(db, requester, id);
            && (out.response.Ok? <==> exists k :: 0 <= k < |db.agents| && db.agents[k].id == id && db.agents[k].createdBy == requester)
            && (out.response.Ok? ==> forall a :: a in out.db.agents <==> a in db.agents && a.id != id)
            && |out.db.agents| == |db.agents| - (if out.response.Ok? then 1 else 0)
  {
    var out := DeleteAgent(db, requester, id);
    match FindOwnedAgent(db.agents, id, requester)
    case None =>
    case Some(k) =>
      var r := out.db.agents;
      forall a
        ensures a in r <==> a in db.agents && a.id != id
      {
        if a in r {
          var i :| 0 <= i < |r| && r[i] == a;
          if i < k { assert db.agents[i] == a; } else { assert db.agents[i + 1] == a; }
        }
        if a in db.agents && a.id != id {
          var i :| 0 <= i < |db.agents| && db.agents[i] == a;
          assert i != k;
          if i < k { assert r[i] == a; } else { assert r[i - 1] == a; }
        }
      }
  }

  /** Deletions keep the store's invariants. */
  lemma DeletionsKeepValid(db: Db, requester: Id, id: Id)
    requires Valid(db)
    ensures Valid(DeleteUser(db, id).db)
    ensures Valid(DeleteAgent(db, requester, id).db)
  {
  }
}
