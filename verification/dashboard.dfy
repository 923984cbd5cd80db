/** The dashboard page's own logic (frontend/src/pages/Dashboard.jsx): the
    greeting name, the defaults-first card order, the local counter updates on
    create and delete, and what the stat tiles and cards show. */
module Dashboard {
  import opened Wrappers
  import opened Schema
  import opened Seqs
  import opened Text
  import opened UserController

  // ---------------------------------------------------------------- greeting

  /** `user?.fullName?.split(' ')[0] || "User"`; an absent name is "". */
  function UserName(user: Option<UserView>): (name: string)
    ensures name != "" && ' ' !in name
  {
    var word := if user.Some? then Split(user.value.fullName, ' ')[0] else "";
    if word != "" then word else "User"
  }

  /** The greeting is the first word of the name: the name's longest prefix
      without a space. It falls back to "User" exactly when that word is
      empty, i.e. there is no user, the name is empty or it starts with a space. */
  lemma UserNameIsFirstWord(user: UserView)
    ensures var fullName := user.fullName;
            var name := UserName(Some(user));
            && (fullName == "" || fullName[0] == ' ' ==> name == "User")
            && (fullName != "" && fullName[0] != ' ' ==>
                  name <= fullName && (|name| == |fullName| || fullName[|name|] == ' '))
    ensures UserName(None) == "User"
  {
    SplitHead(user.fullName, ' ');
  }

  // ---------------------------------------------------------------- cards

  /** The icon names the page's icon map holds as its own keys. */
  const KnownIcons: set<string> := {"Heart", "Code", "Palette", "Brain", "Bot", "Sparkles", "MessageSquare"}

  /** The names every object literal inherits from `Object.prototype`
      (section 20.1.3 of the ECMAScript 2024 Language Specification). Looking
      one of them up in the icon map finds the inherited member, a truthy
      value, so the `|| Bot` fallback does not apply. */
  const InheritedNames: set<string> := {
    "constructor", "hasOwnProperty", "isPrototypeOf", "propertyIsEnumerable",
    "toLocaleString", "toString", "valueOf", "__proto__",
    "__defineGetter__", "__defineSetter__", "__lookupGetter__", "__lookupSetter__"}

  /** What `iconMap[iconName] || Bot` yields: one of the page's icon
      components, or an inherited member of `Object.prototype`. */
  datatype Icon = Component(name: string) | Inherited(member: string)

  /** `getIconComponent`: a known name maps to its icon, an inherited name to
      the inherited member, and any other name to Bot. */
  function IconComponent(name: string): (r: Icon)
    ensures r.Component? ==> r.name in KnownIcons
    ensures r == Component(name) <==> name in KnownIcons
    ensures r.Inherited? <==> name in InheritedNames
    ensures r.Inherited? ==> r.member == name
    ensures name !in KnownIcons && name !in InheritedNames ==> r == Component("Bot")
  {
    if name in KnownIcons then Component(name)
    else if name in InheritedNames then Inherited(name)
    else Component("Bot")
  }

  /** A card: the agent's fields as the page maps them. */
  datatype Card = Card(id: Id, name: string, icon: Icon, color: string, description: string, isDefault: bool)

  function CardOf(a: AgentSummary): Card {
    Card(a.id, a.name, IconComponent(a.icon), a.color, a.description, a.isDefault)
  }

  function Cards(agents: seq<AgentSummary>): (cs: seq<Card>)
    ensures |cs| == |agents| && forall k :: 0 <= k < |agents| ==> cs[k] == CardOf(agents[k])
  {
    seq(|agents|, k requires 0 <= k < |agents| => CardOf(agents[k]))
  }

  /** The sort comparator: a default card before a non-default one, equal otherwise. */
  function Compare(a: Card, b: Card): int {
    if a.isDefault && !b.isDefault then -1
    else if !a.isDefault && b.isDefault then 1
    else 0
  }

  /** Inserts `x` after the last card of `sorted` that does not compare greater than it. */
  function Insert(sorted: seq<Card>, x: Card): (r: seq<Card>)
    decreases |sorted|
  {
    if |sorted| == 0 then [x]
    else if Compare(sorted[|sorted| - 1], x) > 0 then Insert(sorted[..|sorted| - 1], x) + [sorted[|sorted| - 1]]
    else sorted + [x]
  }

  /** `Array.prototype.sort` with the comparator: a stable sort, written as an
      insertion sort (ECMAScript requires stability, and every stable sort
      orders a list the same way for this comparator). */
  function Sort(s: seq<Card>): seq<Card>
    decreases |s|
  {
    if |s| == 0 then [] else Insert(Sort(s[..|s| - 1]), s[|s| - 1])
  }

  /** The cards the page shows for a data state, in order. */
  function DisplayedCards(agents: seq<AgentSummary>): seq<Card> {
    Sort(Cards(agents))
  }

  function IsDefaultCard(): Card -> bool {
    (c: Card) => c.isDefault
  }

  function IsCustomCard(): Card -> bool {
    (c: Card) => !c.isDefault
  }

  /** Inserting a default card into "defaults, then others" lands it after the defaults. */
  lemma {:induction false} InsertDefault(ds: seq<Card>, ns: seq<Card>, x: Card)
    requires forall k :: 0 <= k < |ds| ==> ds[k].isDefault
    requires forall k :: 0 <= k < |ns| ==> !ns[k].isDefault
    requires x.isDefault
    ensures Insert(ds + ns, x) == ds + [x] + ns
    decreases |ns|
  {
    if |ns| == 0 {
      assert ds + ns == ds;
    } else {
      var last := ns[|ns| - 1];
      var init := ns[..|ns| - 1];
      assert (ds + ns)[..|ds + ns| - 1] == ds + init;
      assert (ds + ns)[|ds + ns| - 1] == last;
      InsertDefault(ds, init, x);
      assert ns == init + [last];
    }
  }

  /** A non-default card is appended at the end. */
  lemma InsertCustom(s: seq<Card>, x: Card)
    requires !x.isDefault
    ensures Insert(s, x) == s + [x]
  {
  }

  /** One step of the sort: the last card inserted into the sorted rest. */
  lemma SortSnoc(init: seq<Card>, x: Card)
    ensures Sort(init + [x]) == Insert(Sort(init), x)
  {
    assert (init + [x])[..|init + [x]| - 1] == init;
  }

  /** The filters of a list extended by a default card. */
  lemma FiltersSnocDefault(init: seq<Card>, x: Card)
    requires x.isDefault
    ensures Filter(init + [x], IsDefaultCard()) == Filter(init, IsDefaultCard()) + [x]
    ensures Filter(init + [x], IsCustomCard()) == Filter(init, IsCustomCard())
  {
    FilterSnoc(init, x, IsDefaultCard());
    FilterSnoc(init, x, IsCustomCard());
    assert Filter(init, IsCustomCard()) + [] == Filter(init, IsCustomCard());
  }

  /** The filters of a list extended by a non-default card. */
  lemma FiltersSnocCustom(init: seq<Card>, x: Card)
    requires !x.isDefault
    ensures Filter(init + [x], IsDefaultCard()) == Filter(init, IsDefaultCard())
    ensures Filter(init + [x], IsCustomCard()) == Filter(init, IsCustomCard()) + [x]
  {
    FilterSnoc(init, x, IsDefaultCard());
    FilterSnoc(init, x, IsCustomCard());
    assert Filter(init, IsDefaultCard()) + [] == Filter(init, IsDefaultCard());
  }

  /** The sort step for a default card keeps the partition. */
  lemma SortSnocDefault(init: seq<Card>, x: Card)
    requires x.isDefault
    requires Sort(init) == Filter(init, IsDefaultCard()) + Filter(init, IsCustomCard())
    ensures Sort(init + [x]) == Filter(init + [x], IsDefaultCard()) + Filter(init + [x], IsCustomCard())
  {
    var ds := Filter(init, IsDefaultCard());
    var ns := Filter(init, IsCustomCard());
    SortSnoc(init, x);
    FiltersSnocDefault(init, x);
    InsertDefault(ds, ns, x);
  }

  /** The sort step for a non-default card keeps the partition. */
  lemma SortSnocCustom(init: seq<Card>, x: Card)
    requires !x.isDefault
    requires Sort(init) == Filter(init, IsDefaultCard()) + Filter(init, IsCustomCard())
    ensures Sort(init + [x]) == Filter(init + [x], IsDefaultCard()) + Filter(init + [x], IsCustomCard())
  {
    var ds := Filter(init, IsDefaultCard());
    var ns := Filter(init, IsCustomCard());
    SortSnoc(init, x);
    FiltersSnocCustom(init, x);
    InsertCustom(ds + ns, x);
    assert ds + ns + [x] == ds + (ns + [x]);
  }

  /** The sort puts the default cards first and the others after, each group in
      its original order. */
  lemma {:induction false} SortPartitions(s: seq<Card>)
    ensures Sort(s) == Filter(s, IsDefaultCard()) + Filter(s, IsCustomCard())
    decreases |s|
  {
    if |s| > 0 {
      var init := s[..|s| - 1];
      var x := s[|s| - 1];
      assert s == init + [x];
      SortPartitions(init);
      if x.isDefault {
        SortSnocDefault(init, x);
      } else {
        SortSnocCustom(init, x);
      }
    }
  }

  /** The shown list is a permutation of the fetched one with every default
      card before every other card, and keeps the order within each group. */
  lemma DisplayedOrder(agents: seq<AgentSummary>)
    ensures var shown := DisplayedCards(agents);
            && multiset(shown) == multiset(Cards(agents))
            && (forall i, j :: 0 <= i < j < |shown| && shown[j].isDefault ==> shown[i].isDefault)
            && IsSubsequence(Filter(shown, IsDefaultCard()), Cards(agents))
    ensures DisplayedCards(agents) == Filter(Cards(agents), IsDefaultCard()) + Filter(Cards(agents), IsCustomCard())
  {
    var cs := Cards(agents);
    SortPartitions(cs);
    FilterPartition(cs, IsDefaultCard(), IsCustomCard());
    var ds := Filter(cs, IsDefaultCard());
    var ns := Filter(cs, IsCustomCard());
    var shown := ds + ns;
    forall i, j | 0 <= i < j < |shown| && shown[j].isDefault
      ensures shown[i].isDefault
    {
    }
    FilterAppend(ds, ns, IsDefaultCard());
    FilterNarrower(cs, IsDefaultCard(), IsDefaultCard());
    FilterNone(ns, IsDefaultCard());
    assert Filter(shown, IsDefaultCard()) == ds;
    FilterIsSubsequence(cs, IsDefaultCard());
  }

  /** A card offers the delete button exactly when it is not a default agent. */
  predicate ShowsDelete(c: Card) {
    !c.isDefault
  }

  /** So in the shown list the cards with a delete button come last. */
  lemma DeleteButtonsTrail(agents: seq<AgentSummary>)
    ensures var shown := DisplayedCards(agents);
            forall i, j :: 0 <= i < j < |shown| && ShowsDelete(shown[i]) ==> ShowsDelete(shown[j])
  {
    DisplayedOrder(agents);
  }

  // ---------------------------------------------------------------- counters

  /** The page's copy of the dashboard answer; the counters are plain numbers
      that local updates may move below zero. */
  datatype DashboardData = DashboardData(totalChats: int, defaultAgents: int, customAgents: int, agents: seq<AgentSummary>)

  const InitialData: DashboardData := DashboardData(0, 0, 0, [])

  /** The fetched answer replaces the data. */
  function Loaded(s: Stats): (d: DashboardData)
    ensures d.totalChats == s.totalChats && d.defaultAgents == s.defaultAgents
    ensures d.customAgents == s.customAgents && d.agents == s.agents
  {
    DashboardData(s.totalChats, s.defaultAgents, s.customAgents, s.agents)
  }

  /** `handleCreateSuccess`: one more custom agent, the new one first. */
  function OnCreate(d: DashboardData, created: AgentSummary): (r: DashboardData)
    ensures r.customAgents == d.customAgents + 1
    ensures |r.agents| == |d.agents| + 1 && r.agents[0] == created && r.agents[1..] == d.agents
    ensures r.totalChats == d.totalChats && r.defaultAgents == d.defaultAgents
  {
    d.(customAgents := d.customAgents + 1, agents := [created] + d.agents)
  }

  /** The delete callback's filter `a => a._id !== agentId`. */
  function OtherId(id: Id): AgentSummary -> bool {
    (a: AgentSummary) => a.id != id
  }

  /** The local update after a successful delete: one custom agent fewer and
      every card with that id gone. */
  function OnDelete(d: DashboardData, id: Id): (r: DashboardData)
    ensures r.customAgents == d.customAgents - 1
    ensures forall a :: a in r.agents <==> a in d.agents && a.id != id
    ensures IsSubsequence(r.agents, d.agents)
    ensures forall a: AgentSummary :: a.id != id ==> multiset(r.agents)[a] == multiset(d.agents)[a]
    ensures r.totalChats == d.totalChats && r.defaultAgents == d.defaultAgents
  {
    FilterIsSubsequence(d.agents, OtherId(id));
    FilterKeepsCounts(d.agents, OtherId(id));
    d.(customAgents := d.customAgents - 1, agents := Filter(d.agents, OtherId(id)))
  }

  /** Deleting the agent just created, under an id no other card has, gives
      back the data as it was. */
  lemma DeleteUndoesCreate(d: DashboardData, created: AgentSummary)
    requires forall k :: 0 <= k < |d.agents| ==> d.agents[k].id != created.id
    ensures OnDelete(OnCreate(d, created), created.id) == d
  {
    var p := OtherId(created.id);
    assert ([created] + d.agents)[1..] == d.agents;
    FilterAll(d.agents, p);
  }

  /** A stat tile's value: "..." while loading, else the number. */
  datatype StatValue = Pending | Shown(n: int)

  function StatTile(loading: bool, n: int): (v: StatValue)
    ensures v.Pending? <==> loading
    ensures v.Shown? ==> v.n == n
  {
    if loading then Pending else Shown(n)
  }
}
