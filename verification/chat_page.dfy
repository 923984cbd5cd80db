/** The chat page's own logic (frontend/src/pages/Chat.jsx): the merge of
    discovered interests and traits into the stored profile, the agent search
    filter, the send guard, the message-list update after a reply and the
    discovery prompt. */
module ChatPage {
  import opened Wrappers
  import opened Schema
  import opened Seqs
  import opened Text
  import opened AuthStorage
  import UserController
  import ChatController
  import GeminiService

  // ---------------------------------------------------------------- discovery merge

  /** `[...new Set([...(current || []), ...(discovered || [])])]`: every value
      of either list once, in the order of its first occurrence in the
      current list followed by the discovered one. */
  function MergeList(current: Option<seq<string>>, discovered: Option<seq<string>>): (r: seq<string>)
    ensures forall x :: x in r <==> x in current.GetOr([]) || x in discovered.GetOr([])
    ensures NoDups(r)
    ensures IsSubsequence(r, current.GetOr([]) + discovered.GetOr([]))
    ensures forall i, j :: 0 <= i < j < |r| ==>
              IndexOf(current.GetOr([]) + discovered.GetOr([]), r[i])
                < IndexOf(current.GetOr([]) + discovered.GetOr([]), r[j])
  {
    var all := current.GetOr([]) + discovered.GetOr([]);
    DedupFirstOrder(all);
    Dedup(all)
  }

  /** The merge keeps a duplicate-free current list as its prefix, in order,
      and appends only new values. */
  lemma MergeKeepsCurrent(current: seq<string>, discovered: Option<seq<string>>)
    requires NoDups(current)
    ensures current <= MergeList(Some(current), discovered)
  {
    DedupPrefix(current, discovered.GetOr([]));
    DedupNoDups(current);
  }

  /** Merging the same discoveries again changes nothing. */
  lemma MergeIdempotent(current: Option<seq<string>>, discovered: Option<seq<string>>)
    ensures MergeList(Some(MergeList(current, discovered)), discovered) == MergeList(current, discovered)
  {
    var m := MergeList(current, discovered);
    DedupAbsorbs(m, discovered.GetOr([]));
  }

  /** Comparison is exact: merging a single value with a different single
      value keeps both, in order, even when they differ only in case
      ("Music" and "music"); merging a value with itself keeps one copy. */
  lemma MergeCaseSensitive(x: string, y: string)
    ensures x != y ==> MergeList(Some([x]), Some([y])) == [x, y]
    ensures MergeList(Some([x]), Some([x])) == [x]
  {
    assert [x] + [y] == [x, y];
    assert [x] + [x] == [x, x];
    if x != y {
      DedupNoDups([x, y]);
    }
    DedupSnoc([x], x);
    DedupNoDups([x]);
  }

  /** What the discovery carries: either list may be missing. */
  datatype Discoveries = Discoveries(interests: Option<seq<string>>, personalityTraits: Option<seq<string>>)

  /** The profile update the accept button sends: the two merged lists. */
  datatype DiscoveryUpdate = DiscoveryUpdate(interests: seq<string>, personalityTraits: seq<string>)

  /** What the update request yields: a thrown `fetch`, a non-ok response, or
      an ok response carrying the updated user. */
  datatype PutResult = PutFailed | PutNotOk | PutOk(user: UserView)

  /** The outcome of accepting: the update sent if any, the storage afterwards
      and the toast shown if any. */
  datatype Accepted = Accepted(sent: Option<DiscoveryUpdate>, storage: Storage, toast: Option<string>)

  const AcceptFailed: string := "Failed to update profile"
  const AcceptSucceeded: string := "Profile updated with new discoveries!"

  /** `handleAcceptDiscovery` as written: `getStoredUser` is not imported into
      the page, so its first statement throws a ReferenceError, which the
      catch turns into the failure toast before anything is sent. */
  function AcceptDiscoveryAsWritten(st: Storage, d: Discoveries): (r: Accepted)
  {
    Accepted(None, st, Some(AcceptFailed))
  }

  /** Accepting never reaches the server as written, whatever is stored and discovered. */
  lemma AcceptDiscoveryAsWrittenFails(st: Storage, d: Discoveries)
    ensures AcceptDiscoveryAsWritten(st, d).sent.None?
    ensures AcceptDiscoveryAsWritten(st, d).toast == Some(AcceptFailed)
    ensures AcceptDiscoveryAsWritten(st, d).storage == st
  {
  }

  /** The update for a stored user: each of its lists merged with the discovered one. */
  function MergedUpdate(u: UserView, d: Discoveries): (upd: DiscoveryUpdate)
    ensures forall x :: x in upd.interests <==> x in u.interests || x in d.interests.GetOr([])
    ensures forall x :: x in upd.personalityTraits <==> x in u.personalityTraits || x in d.personalityTraits.GetOr([])
  {
    DiscoveryUpdate(MergeList(Some(u.interests), d.interests),
                    MergeList(Some(u.personalityTraits), d.personalityTraits))
  }

  /** `handleAcceptDiscovery` with `getStoredUser` in scope. With no stored user
      `currentUser.interests` throws and the failure toast shows; otherwise the
      merged lists are sent, and an ok answer's user is written back to storage
      under "user" (`serialize` stands for `JSON.stringify`). A non-ok answer
      shows nothing; a thrown request shows the failure toast. Storage changes
      only on an ok answer, and no other entry ever changes. */
  function AcceptDiscovery(st: Storage, d: Discoveries, parse: string -> Option<UserView>,
                           put: DiscoveryUpdate -> PutResult, serialize: UserView -> string): (r: Accepted)
    ensures GetStoredUser(st, parse).None? ==> r == Accepted(None, st, Some(AcceptFailed))
    ensures GetStoredUser(st, parse).Some? ==>
              var upd := MergedUpdate(GetStoredUser(st, parse).value, d);
              && r.sent == Some(upd)
              && (put(upd).PutOk? ==> r.storage == st[UserKey := serialize(put(upd).user)] && r.toast == Some(AcceptSucceeded))
              && (!put(upd).PutOk? ==> r.storage == st)
              && (r.toast == Some(AcceptFailed) <==> put(upd).PutFailed?)
              && (r.toast.None? <==> put(upd).PutNotOk?)
    ensures r.storage != st ==> r.toast == Some(AcceptSucceeded) && r.storage.Keys == st.Keys + {UserKey}
    ensures forall key :: key in st && key != UserKey ==> key in r.storage && r.storage[key] == st[key]
  {
    match GetStoredUser(st, parse)
    case None => Accepted(None, st, Some(AcceptFailed))
    case Some(u) =>
      var update := MergedUpdate(u, d);
      match put(update)
      case PutFailed => Accepted(Some(update), st, Some(AcceptFailed))
      case PutNotOk => Accepted(Some(update), st, None)
      case PutOk(user) => Accepted(Some(update), st[UserKey := serialize(user)], Some(AcceptSucceeded))
  }

  /** With a stored user, the update sent holds every stored and every
      discovered value once, stored values first in their order. */
  lemma AcceptDiscoverySends(st: Storage, d: Discoveries, parse: string -> Option<UserView>,
                             put: DiscoveryUpdate -> PutResult, serialize: UserView -> string)
    requires GetStoredUser(st, parse).Some?
    requires NoDups(GetStoredUser(st, parse).value.interests)
    ensures var u := GetStoredUser(st, parse).value;
            var sent := AcceptDiscovery(st, d, parse, put, serialize).sent.value;
            && u.interests <= sent.interests
            && (forall x :: x in sent.interests <==> x in u.interests || x in d.interests.GetOr([]))
            && (forall x :: x in sent.personalityTraits <==> x in u.personalityTraits || x in d.personalityTraits.GetOr([]))
            && NoDups(sent.interests) && NoDups(sent.personalityTraits)
  {
    var u := GetStoredUser(st, parse).value;
    MergeKeepsCurrent(u.interests, d.interests);
  }

  /** The update carries neither a name nor an email, so the profile handler,
      which reads only those two fields, answers with the stored record and
      changes nothing: the merged lists are not stored. */
  lemma DiscoveryUpdateStoresNothing(db: Db, userId: Id)
    requires Valid(db) && FindUser(db.users, userId).Some?
    ensures var out := UserController.UpdateProfile(db, userId, UserController.ProfileBody(None, None, None, None, None));
            && out.db == db
            && out.response.Ok?
            && out.response.value.user == WithoutPassword(db.users[FindUser(db.users, userId).value])
  {
    var k := FindUser(db.users, userId).value;
    assert !UserController.EmailTaken(db.users, k, db.users[k].email);
    assert db.users[k := db.users[k]] == db.users;
  }

  // ---------------------------------------------------------------- agent search

  /** An agent as the page lists it; `description` may be missing. */
  datatype ListedAgent = ListedAgent(id: Id, name: string, description: Option<string>,
                                     isDefault: bool, isCustom: bool)

  /** The search callback: the lower-cased name or description contains the
      lower-cased query; a missing description never matches. */
  function MatchesQuery(query: string): ListedAgent -> bool {
    (a: ListedAgent) =>
      Contains(ToLower(a.name), ToLower(query)) ||
      (a.description.Some? && Contains(ToLower(a.description.value), ToLower(query)))
  }

  /** The agents shown for a search query, in list order. */
  function Search(agents: seq<ListedAgent>, query: string): (r: seq<ListedAgent>)
    ensures forall a :: a in r <==> a in agents && MatchesQuery(query)(a)
  {
    Filter(agents, MatchesQuery(query))
  }

  /** The "No agents found" line shows when the filtered list is empty. */
  predicate ShowsNoAgentsFound(agents: seq<ListedAgent>, query: string) {
    |Search(agents, query)| == 0
  }

  /** The search keeps the list order, and the empty query keeps every agent. */
  lemma SearchOrder(agents: seq<ListedAgent>, query: string)
    ensures IsSubsequence(Search(agents, query), agents)
    ensures query == "" ==> Search(agents, query) == agents
  {
    FilterIsSubsequence(agents, MatchesQuery(query));
    if query == "" {
      forall k | 0 <= k < |agents|
        ensures MatchesQuery(query)(agents[k])
      {
        ContainsEmpty(ToLower(agents[k].name));
      }
      FilterAll(agents, MatchesQuery(query));
    }
  }

  /** Case does not matter: an upper-case query finds the same agents. */
  lemma SearchCaseInsensitive(agents: seq<ListedAgent>, query: string)
    ensures Search(agents, ToLower(query)) == Search(agents, query)
  {
    ToLowerIdempotent(query);
    assert MatchesQuery(ToLower(query)) == MatchesQuery(query);
  }

  /** The empty-result line shows exactly when no agent matches. */
  lemma NoAgentsFoundIff(agents: seq<ListedAgent>, query: string)
    ensures ShowsNoAgentsFound(agents, query) <==> forall k :: 0 <= k < |agents| ==> !MatchesQuery(query)(agents[k])
  {
    var r := Search(agents, query);
    if |r| > 0 {
      assert r[0] in r;
    } else {
      forall k | 0 <= k < |agents|
        ensures !MatchesQuery(query)(agents[k])
      {
        assert agents[k] in agents;
      }
    }
  }

  // ---------------------------------------------------------------- sending

  /** A chat entry; `ref` stands for the object's identity, which the page
      compares with `!==`, and `createdAt` for its timestamp. */
  datatype Entry = Entry(ref: nat, role: string, content: string, createdAt: nat)

  /** The page's chat state: the entries, the input text and the in-flight flag. */
  datatype ChatView = ChatView(messages: seq<Entry>, input: string, sending: bool)

  /** `!message.trim() || !agentId || sending`: the guard that makes a send a no-op. */
  predicate SendBlocked(v: ChatView, agentId: Option<string>) {
    Trim(v.input) == "" || agentId.None? || agentId.value == "" || v.sending
  }

  /** The optimistic entry: the input as a user message, with a new identity. */
  function Optimistic(v: ChatView, ref: nat, now: nat): Entry {
    Entry(ref, "user", v.input, now)
  }

  /** The start of a send: the optimistic user entry appended, the input
      cleared and the flag raised; None when the guard blocks. */
  function BeginSend(v: ChatView, agentId: Option<string>, ref: nat, now: nat): (r: Option<ChatView>)
    ensures r.None? <==> SendBlocked(v, agentId)
    ensures r.Some? ==> r.value.messages == v.messages + [Optimistic(v, ref, now)]
    ensures r.Some? ==> r.value.input == "" && r.value.sending
  {
    if SendBlocked(v, agentId) then None
    else Some(ChatView(v.messages + [Optimistic(v, ref, now)], "", true))
  }

  /** What the chat request yields. The page reads `reply` and an optional
      `discoveries` from an ok body. */
  datatype SendResult = Delivered(reply: string, discoveries: Option<Discoveries>) | Refused | Broken

  /** The callback `m => m !== userMsg`. */
  function Other(e: Entry): Entry -> bool {
    (m: Entry) => m != e
  }

  /** Dropping an entry that was appended to a list without it gives the list back. */
  lemma DropAppended(ms: seq<Entry>, e: Entry)
    requires e !in ms
    ensures Filter(ms + [e], Other(e)) == ms
  {
    FilterSnoc(ms, e, Other(e));
    forall k | 0 <= k < |ms|
      ensures Other(e)(ms[k])
    {
      assert ms[k] in ms;
    }
    FilterAll(ms, Other(e));
  }

  /** The end of a send: on an ok answer the optimistic entry is dropped and a
      user entry and an assistant entry are appended; the flag drops on every
      path. `sent` is the text that was sent; `user` and `assistant` are the
      two new entries' identities and `now` their timestamp. */
  function FinishSend(v: ChatView, optimistic: Entry, sent: string, result: SendResult,
                      user: nat, assistant: nat, now: nat): (r: ChatView)
    ensures !r.sending && r.input == v.input
    ensures !result.Delivered? ==> r.messages == v.messages
  {
    match result
    case Delivered(reply, _) =>
      var kept := Filter(v.messages, Other(optimistic));
      ChatView(kept + [Entry(user, "user", sent, now), Entry(assistant, "assistant", reply, now)], v.input, false)
    case Refused => v.(sending := false)
    case Broken => v.(sending := false)
  }

  /** After a successful send begun from `v`, the list is the earlier entries
      followed by exactly the user's words and the reply: the optimistic
      entry is gone and nothing else changed. */
  lemma SendReplacesOptimistic(v: ChatView, agentId: Option<string>, ref: nat, sentAt: nat,
                               reply: string, d: Option<Discoveries>, user: nat, assistant: nat, now: nat)
    requires Optimistic(v, ref, sentAt) !in v.messages
    requires !SendBlocked(v, agentId)
    ensures var begun := BeginSend(v, agentId, ref, sentAt).value;
            var r := FinishSend(begun, Optimistic(v, ref, sentAt), v.input, Delivered(reply, d), user, assistant, now);
            r.messages == v.messages + [Entry(user, "user", v.input, now), Entry(assistant, "assistant", reply, now)]
            && !r.sending && r.input == ""
  {
    var optimistic := Optimistic(v, ref, sentAt);
    var begun := BeginSend(v, agentId, ref, sentAt).value;
    assert begun.messages == v.messages + [optimistic];
    DropAppended(v.messages, optimistic);
  }

  // ---------------------------------------------------------------- discovery prompt

  /** The prompt's text, or None when it is not shown: it shows when
      discoveries came back with at least one non-empty list. */
  function DiscoveryPrompt(d: Option<Discoveries>): (r: Option<string>)
    ensures r.Some? <==> d.Some? && (|d.value.interests.GetOr([])| > 0 || |d.value.personalityTraits.GetOr([])| > 0)
  {
    if d.Some? && (|d.value.interests.GetOr([])| > 0 || |d.value.personalityTraits.GetOr([])| > 0) then
      Some("I noticed you might be into: " + Join(d.value.interests.GetOr([]) + d.value.personalityTraits.GetOr([]), ", ")
           + ". Should I add this to your profile?")
    else None
  }

  /** The prompt names every discovered interest and trait. */
  lemma DiscoveryPromptListsAll(d: Discoveries)
    requires |d.interests.GetOr([])| > 0 || |d.personalityTraits.GetOr([])| > 0
    ensures var items := d.interests.GetOr([]) + d.personalityTraits.GetOr([]);
            forall i :: 0 <= i < |items| ==> Contains(DiscoveryPrompt(Some(d)).value, items[i])
  {
    var items := d.interests.GetOr([]) + d.personalityTraits.GetOr([]);
    var joined := Join(items, ", ");
    JoinContainsEach(items, ", ");
    forall i | 0 <= i < |items|
      ensures Contains(DiscoveryPrompt(Some(d)).value, items[i])
    {
      ContainsExtend("I noticed you might be into: ", joined, ". Should I add this to your profile?", items[i]);
    }
  }

  /** An ok answer of the chat handler as the page reads it: the reply, and no
      `discoveries`, a field the handler never sets. */
  function AsSendResult(body: ChatController.ChatReply): (r: SendResult)
    ensures r.Delivered? && r.reply == body.reply && r.discoveries.None?
  {
    Delivered(body.reply, None)
  }

  /** So the discovery prompt never shows after a turn the handler answers. */
  lemma NoPromptFromHandler(db: Db, userId: Id, body: ChatController.ChatBody,
                            send: GeminiService.GeminiRequest -> Completion)
    ensures var out := ChatController.SendMessage(db, userId, body, send);
            out.response.Ok? ==> DiscoveryPrompt(AsSendResult(out.response.value).discoveries).None?
  {
  }
}
