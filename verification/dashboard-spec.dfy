/** What each dashboard event does to the message threads, the seen ids and the agent roster. */
module DashboardSpec {
  import opened MessageRows

  /** How many rows of an agent the cache and a cold init keep. */
  const PER_AGENT_CAP: nat := 200

  /** How far from the end of a thread an echo looks for its optimistic row. */
  const ECHO_WINDOW: nat := 10

  datatype Chat = Chat(threads: Threads, seen: set<int>)

  // ── init ──

  /** The rows whose id is not among the ids already held. */
  function Unheld(have: set<int>, rows: seq<Msg>): (r: seq<Msg>)
    ensures forall m :: m in r <==> m in rows && m.id !in have
  {
    if |rows| == 0 then []
    else
      var last := rows[|rows| - 1];
      if last.id in have then Unheld(have, rows[..|rows| - 1])
      else Unheld(have, rows[..|rows| - 1]) + [last]
  }

  function MergeThread(existing: seq<Msg>, rows: seq<Msg>): seq<Msg> {
    SortRows(existing + Unheld(IdSet(existing), rows))
  }

  function MergeDelta(threads: Threads, incoming: Threads): Threads {
    map a | a in threads.Keys + incoming.Keys ::
      if a in incoming then MergeThread(Thread(threads, a), incoming[a]) else threads[a]
  }

  function AllIds(threads: Threads): set<int> {
    set a, m | a in threads && m in threads[a] && m.id > 0 :: m.id
  }

  function OnInit(c: Chat, delta: bool, incoming: Threads): Chat {
    var threads := if delta then MergeDelta(c.threads, incoming) else incoming;
    Chat(threads, AllIds(threads))
  }

  // ── a live row ──

  /** A row shown on sending, waiting for the server's copy of it. */
  predicate Echoes(shown: Msg, m: Msg) {
    shown.id < 0 && shown.agent == m.agent && shown.text == m.text && shown.direction == m.direction
  }

  /** The newest matching optimistic row among the last few before position `i`, or -1. */
  function EchoSpot(list: seq<Msg>, m: Msg, i: int): (k: int)
    requires -1 <= i < |list|
    ensures -1 <= k <= i
    ensures k >= 0 ==> Echoes(list[k], m) && k >= |list| - ECHO_WINDOW
    decreases i + 1
  {
    if i < 0 || i < |list| - ECHO_WINDOW then -1
    else if Echoes(list[i], m) then i
    else EchoSpot(list, m, i - 1)
  }

  function Receive(list: seq<Msg>, m: Msg): seq<Msg> {
    var k := if m.id > 0 then EchoSpot(list, m, |list| - 1) else -1;
    if k >= 0 then list[k := m] else list + [m]
  }

  function OnMessage(c: Chat, m: Msg): Chat {
    if m.id > 0 && m.id in c.seen then c
    else Chat(c.threads[m.agent := Receive(Thread(c.threads, m.agent), m)],
              if m.id > 0 then c.seen + {m.id} else c.seen)
  }

  // ── withdrawal, removal, optimistic rows ──

  function FindId(list: seq<Msg>, id: int, from: nat): (k: int)
    requires from <= |list|
    ensures k == -1 || from <= k < |list|
    ensures k >= 0 ==> list[k].id == id && forall j :: from <= j < k ==> list[j].id != id
    ensures k == -1 ==> forall j :: from <= j < |list| ==> list[j].id != id
    decreases |list| - from
  {
    if from == |list| then -1
    else if list[from].id == id then from
    else FindId(list, id, from + 1)
  }

  function Overwrite(list: seq<Msg>, m: Msg): seq<Msg> {
    var k := FindId(list, m.id, 0);
    if k >= 0 then list[k := m] else list
  }

  function OnWithdrawn(threads: Threads, m: Msg): Threads {
    if m.agent in threads then threads[m.agent := Overwrite(threads[m.agent], m)] else threads
  }

  function Remove(list: seq<Msg>, id: int): seq<Msg> {
    var k := FindId(list, id, 0);
    if k >= 0 then list[..k] + list[k + 1..] else list
  }

  // ── the cache ──

  function Cap(t: seq<Msg>): seq<Msg> {
    LastN(Positive(t), PER_AGENT_CAP)
  }

  function CapAll(threads: Threads): Threads {
    map a | a in threads :: Cap(threads[a])
  }

  /** The rows the cache leaves out. */
  function CappedOff(t: seq<Msg>): seq<Msg> {
    var p := Positive(t);
    if |p| <= PER_AGENT_CAP then [] else p[..|p| - PER_AGENT_CAP]
  }

  /** `m` is the largest server id in the threads, or 0. */
  ghost predicate IsMaxId(threads: Threads, m: int) {
    && m >= 0
    && (forall k :: k in AllIds(threads) ==> k <= m)
    && (m > 0 ==> m in AllIds(threads))
  }

  // ── the roster ──

  datatype Agent = Agent(name: string, state: string)

  datatype Roster = Roster(agents: seq<Agent>, byName: map<string, Agent>, selected: set<string>)

  function Names(agents: seq<Agent>): set<string> {
    set g | g in agents :: g.name
  }

  /** A later agent of the same name wins, as repeated `set` calls do. */
  function Index(agents: seq<Agent>): map<string, Agent> {
    if |agents| == 0 then map[]
    else Index(agents[..|agents| - 1])[agents[|agents| - 1].name := agents[|agents| - 1]]
  }

  function IndexOf(agents: seq<Agent>, g: Agent, from: nat): (k: int)
    requires from <= |agents|
    ensures k == -1 || (from <= k < |agents| && agents[k] == g)
    ensures k == -1 ==> forall j :: from <= j < |agents| ==> agents[j] != g
    decreases |agents| - from
  {
    if from == |agents| then -1
    else if agents[from] == g then from
    else IndexOf(agents, g, from + 1)
  }

  function Without(agents: seq<Agent>, name: string): (r: seq<Agent>)
    ensures forall g :: g in r <==> g in agents && g.name != name
  {
    if |agents| == 0 then []
    else
      var last := agents[|agents| - 1];
      if last.name == name then Without(agents[..|agents| - 1], name)
      else Without(agents[..|agents| - 1], name) + [last]
  }

  /** The roster part of `init`: the selection is left to the code that restores it. */
  function Enroll(r: Roster, agents: seq<Agent>): Roster {
    Roster(agents, Index(agents), r.selected)
  }

  /** `agents_update`, which also prunes the selection. */
  function OnAgents(r: Roster, agents: seq<Agent>): Roster {
    Roster(agents, Index(agents), r.selected * Names(agents))
  }

  function OnAgent(r: Roster, g: Agent): Roster {
    var agents :=
      if g.name in r.byName then
        var k := IndexOf(r.agents, r.byName[g.name], 0);
        if k >= 0 then r.agents[k := g] else r.agents
      else r.agents + [g];
    r.(agents := agents, byName := r.byName[g.name := g])
  }

  function OnDestroyed(r: Roster, name: string): Roster {
    Roster(Without(r.agents, name), r.byName - {name}, r.selected - {name})
  }
}
