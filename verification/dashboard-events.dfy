/** What every WebSocket event keeps: unique server ids, the seen set, the agent index. */
module DashboardEvents {
  import opened MessageRows
  import opened DashboardSpec
  import opened ReplicaSegments

  datatype Tab = Tab(chat: Chat, roster: Roster)

  datatype WsEvent =
    | InitEvent(delta: bool, threads: Threads, agents: seq<Agent>)
    | AgentsUpdate(agents: seq<Agent>)
    | AgentUpdate(agent: Agent)
    | AgentDestroyed(name: string)
    | Message(row: Msg)
    | MessageWithdrawn(row: Msg)

  function Handle(t: Tab, e: WsEvent): Tab {
    match e
    case InitEvent(delta, threads, agents) => Tab(OnInit(t.chat, delta, threads), Enroll(t.roster, agents))
    case AgentsUpdate(agents) => t.(roster := OnAgents(t.roster, agents))
    case AgentUpdate(g) => t.(roster := OnAgent(t.roster, g))
    case AgentDestroyed(name) =>
      Tab(t.chat.(threads := t.chat.threads - {name}), OnDestroyed(t.roster, name))
    case Message(m) => t.(chat := OnMessage(t.chat, m))
    case MessageWithdrawn(m) => t.(chat := t.chat.(threads := OnWithdrawn(t.chat.threads, m)))
  }

  /** `owner` is the server's agent of each message id. */
  ghost predicate Owned(owner: int -> string, threads: Threads) {
    forall a :: a in threads ==> OwnedThread(owner, a, threads[a])
  }

  ghost predicate OwnedThread(owner: int -> string, a: string, t: seq<Msg>) {
    Distinct(t) && forall m :: m in t && m.id > 0 ==> owner(m.id) == a
  }

  ghost predicate NamesDistinct(agents: seq<Agent>) {
    forall i, j :: 0 <= i < j < |agents| ==> agents[i].name != agents[j].name
  }

  /** What the server guarantees: ids name one row each, and agent names are unique. */
  ghost predicate FromServer(owner: int -> string, e: WsEvent) {
    match e
    case InitEvent(_, threads, agents) => Owned(owner, threads) && NamesDistinct(agents)
    case AgentsUpdate(agents) => NamesDistinct(agents)
    case Message(m) => m.id > 0 ==> owner(m.id) == m.agent
    case MessageWithdrawn(m) => m.id > 0
    case _ => true
  }

  /** The index maps exactly the names of the agents to their current records. */
  ghost predicate Indexed(r: Roster) {
    && NamesDistinct(r.agents)
    && r.byName.Keys == Names(r.agents)
    && forall g :: g in r.agents ==> g.name in r.byName && r.byName[g.name] == g
  }

  ghost predicate TabGood(owner: int -> string, t: Tab) {
    && Owned(owner, t.chat.threads)
    && AllIds(t.chat.threads) <= t.chat.seen
    && Indexed(t.roster)
  }

  // ── threads ──

  lemma NewIdIsUnheld(threads: Threads, seen: set<int>, m: Msg)
    requires AllIds(threads) <= seen && m.id > 0 && m.id !in seen
    ensures m.id !in IdSet(Thread(threads, m.agent))
  {
    var t := Thread(threads, m.agent);
    assert forall x :: x in t && x.id > 0 ==> x.id in AllIds(threads);
  }

  lemma ReceiveOwned(owner: int -> string, t: seq<Msg>, m: Msg)
    requires OwnedThread(owner, m.agent, t)
    requires m.id > 0 ==> owner(m.id) == m.agent && m.id !in IdSet(t)
    ensures OwnedThread(owner, m.agent, Receive(t, m))
  {
    forall x | x in t && x.id > 0 ensures x.id != m.id {
      assert x.id in IdSet(t);
    }
  }

  lemma ReceivedRows(t: seq<Msg>, m: Msg)
    ensures forall x :: x in Receive(t, m) ==> x in t || x == m
  {
  }

  lemma MessageKeeps(owner: int -> string, t: Tab, m: Msg)
    requires TabGood(owner, t) && FromServer(owner, Message(m))
    ensures TabGood(owner, Handle(t, Message(m)))
  {
    hide Receive, OwnedThread, Indexed, Names;
    if m.id > 0 && m.id in t.chat.seen {
    } else {
      var list := Thread(t.chat.threads, m.agent);
      assert OwnedThread(owner, m.agent, list) by { EmptyOwned(owner, m.agent); }
      if m.id > 0 {
        NewIdIsUnheld(t.chat.threads, t.chat.seen, m);
      }
      ReceiveOwned(owner, list, m);
      ReceivedRows(list, m);
    }
  }

  lemma EmptyOwned(owner: int -> string, a: string)
    ensures OwnedThread(owner, a, [])
  {
  }

  lemma OverwriteOwned(owner: int -> string, a: string, t: seq<Msg>, m: Msg)
    requires OwnedThread(owner, a, t) && m.id > 0
    ensures OwnedThread(owner, a, Overwrite(t, m))
    ensures IdSet(Overwrite(t, m)) == IdSet(t)
  {
    hide Overwrite;
    OverwriteIds(t, m);
    var r := Overwrite(t, m);
    forall x | x in r && x.id > 0 ensures owner(x.id) == a {
      assert x.id in IdSet(r);
      var o :| o in t && o.id > 0 && o.id == x.id;
    }
  }

  lemma WithdrawnKeeps(owner: int -> string, t: Tab, m: Msg)
    requires TabGood(owner, t) && FromServer(owner, MessageWithdrawn(m))
    ensures TabGood(owner, Handle(t, MessageWithdrawn(m)))
  {
    hide Overwrite, OwnedThread, Indexed, IdSet;
    if m.agent in t.chat.threads {
      OverwriteOwned(owner, m.agent, t.chat.threads[m.agent], m);
      SameIds(t.chat.threads, m.agent, Overwrite(t.chat.threads[m.agent], m));
    }
  }

  lemma SameIds(threads: Threads, a: string, t: seq<Msg>)
    requires a in threads && IdSet(t) == IdSet(threads[a])
    ensures AllIds(threads[a := t]) == AllIds(threads)
  {
    var after := threads[a := t];
    forall k | k in AllIds(after) ensures k in AllIds(threads) {
      var b: string, m: Msg :| b in after && m in after[b] && m.id > 0 && m.id == k;
      if b == a {
        assert k in IdSet(t);
        var o :| o in threads[a] && o.id > 0 && o.id == k;
      } else {
        assert m in threads[b];
      }
    }
    forall k | k in AllIds(threads) ensures k in AllIds(after) {
      var b: string, m: Msg :| b in threads && m in threads[b] && m.id > 0 && m.id == k;
      if b == a {
        assert k in IdSet(threads[a]);
        var o :| o in t && o.id > 0 && o.id == k;
        assert o in after[a];
      } else {
        assert m in after[b];
      }
    }
  }

  lemma MergeOwned(owner: int -> string, a: string, t: seq<Msg>, rows: seq<Msg>)
    requires OwnedThread(owner, a, t) && OwnedThread(owner, a, rows)
    ensures OwnedThread(owner, a, MergeThread(t, rows))
  {
    MergeDistinct(t, rows);
    SortRowsSorts(t + Unheld(IdSet(t), rows));
  }

  lemma InitKeepsOwned(owner: int -> string, c: Chat, delta: bool, incoming: Threads)
    requires Owned(owner, c.threads) && Owned(owner, incoming)
    ensures Owned(owner, OnInit(c, delta, incoming).threads)
  {
    hide OwnedThread, MergeThread, AllIds;
    if delta {
      forall a | a in incoming ensures OwnedThread(owner, a, MergeThread(Thread(c.threads, a), incoming[a])) {
        EmptyOwned(owner, a);
        MergeOwned(owner, a, Thread(c.threads, a), incoming[a]);
      }
    }
  }

  // ── the roster ──

  lemma {:induction false} IndexIsExact(agents: seq<Agent>)
    requires NamesDistinct(agents)
    ensures Index(agents).Keys == Names(agents)
    ensures forall g :: g in agents ==> g.name in Index(agents) && Index(agents)[g.name] == g
  {
    if |agents| > 0 {
      var rest, last := agents[..|agents| - 1], agents[|agents| - 1];
      assert agents == rest + [last];
      IndexIsExact(rest);
      assert Names(agents) == Names(rest) + {last.name};
      forall g | g in rest ensures g.name != last.name {
        var i :| 0 <= i < |rest| && rest[i] == g;
        assert agents[i] == g;
      }
    }
  }

  lemma AgentKeepsIndex(r: Roster, g: Agent)
    requires Indexed(r)
    ensures Indexed(OnAgent(r, g))
    ensures r.selected <= Names(r.agents) ==> OnAgent(r, g).selected <= Names(OnAgent(r, g).agents)
  {
    hide NamesDistinct;
    if g.name in r.byName {
      assert g.name in Names(r.agents);
      var old_ :| old_ in r.agents && old_.name == g.name;
      var k := IndexOf(r.agents, old_, 0);
      ReplaceNamed(r.agents, k, g);
    } else {
      forall h | h in r.agents ensures h.name != g.name {
        assert h.name in Names(r.agents);
      }
      AddNamed(r.agents, g);
    }
  }

  lemma ReplaceNamed(agents: seq<Agent>, k: nat, g: Agent)
    requires k < |agents| && agents[k].name == g.name && NamesDistinct(agents)
    ensures NamesDistinct(agents[k := g]) && Names(agents[k := g]) == Names(agents)
    ensures forall h :: h in agents[k := g] ==> h == g || (h in agents && h.name != g.name)
  {
    var after := agents[k := g];
    assert after[k] == g;
    forall h | h in agents ensures h.name in Names(after) {
      var i :| 0 <= i < |agents| && agents[i] == h;
      assert after[i] in after;
    }
    forall h | h in after ensures h == g || (h in agents && h.name != g.name) {
      var i :| 0 <= i < |after| && after[i] == h;
      if i != k {
        assert agents[i] == h;
      }
    }
    assert agents[k] in agents;
  }

  lemma AddNamed(agents: seq<Agent>, g: Agent)
    requires NamesDistinct(agents) && forall h :: h in agents ==> h.name != g.name
    ensures NamesDistinct(agents + [g]) && Names(agents + [g]) == Names(agents) + {g.name}
  {
  }

  lemma {:induction false} WithoutKeepsDistinct(agents: seq<Agent>, name: string)
    requires NamesDistinct(agents)
    ensures NamesDistinct(Without(agents, name))
  {
    if |agents| > 0 {
      var rest, last := agents[..|agents| - 1], agents[|agents| - 1];
      WithoutKeepsDistinct(rest, name);
      var r := Without(rest, name);
      forall i | 0 <= i < |r| ensures r[i].name != last.name {
        assert r[i] in r && r[i] in rest;
      }
    }
  }

  lemma DestroyedKeepsIndex(r: Roster, name: string)
    requires Indexed(r)
    ensures Indexed(OnDestroyed(r, name))
    ensures r.selected <= Names(r.agents) ==> OnDestroyed(r, name).selected <= Names(OnDestroyed(r, name).agents)
  {
    WithoutKeepsDistinct(r.agents, name);
    assert Names(Without(r.agents, name)) == Names(r.agents) - {name};
  }

  /** After an `agents_update` the selection names only agents of the roster, and the next events keep it so. */
  lemma SelectionStaysKnown(r: Roster, agents: seq<Agent>, g: Agent, name: string)
    requires NamesDistinct(agents)
    ensures var s := OnAgents(r, agents);
      && s.selected == r.selected * Names(agents)
      && OnAgent(s, g).selected <= Names(OnAgent(s, g).agents)
      && OnDestroyed(s, name).selected <= Names(OnDestroyed(s, name).agents)
  {
    hide OnAgent, OnDestroyed, Index;
    IndexIsExact(agents);
    var s := OnAgents(r, agents);
    AgentKeepsIndex(s, g);
    DestroyedKeepsIndex(s, name);
  }

  // ── every event, every run ──

  /** Each event keeps the invariant; an `init` establishes it from any restored threads. */
  lemma HandleKeeps(owner: int -> string, t: Tab, e: WsEvent)
    requires FromServer(owner, e)
    requires if e.InitEvent? then Owned(owner, t.chat.threads) else TabGood(owner, t)
    ensures TabGood(owner, Handle(t, e))
  {
    hide Owned, OnMessage, OnWithdrawn, OnAgent, OnDestroyed, Index;
    match e {
      case InitEvent(delta, threads, agents) => {
        InitKeepsOwned(owner, t.chat, delta, threads);
        IndexIsExact(agents);
      }
      case AgentsUpdate(agents) => IndexIsExact(agents);
      case AgentUpdate(g) => AgentKeepsIndex(t.roster, g);
      case AgentDestroyed(name) => {
        DestroyedKeepsIndex(t.roster, name);
        ThreadRemoved(owner, t.chat.threads, name);
      }
      case Message(m) => MessageKeeps(owner, t, m);
      case MessageWithdrawn(m) => WithdrawnKeeps(owner, t, m);
    }
  }

  lemma ThreadRemoved(owner: int -> string, threads: Threads, name: string)
    requires Owned(owner, threads)
    ensures Owned(owner, threads - {name}) && AllIds(threads - {name}) <= AllIds(threads)
  {
  }

  function HandleAll(t: Tab, es: seq<WsEvent>): Tab {
    if |es| == 0 then t else Handle(HandleAll(t, es[..|es| - 1]), es[|es| - 1])
  }

  /** From the first `init` on, after any events. */
  lemma {:induction false} EventsKeep(owner: int -> string, t: Tab, es: seq<WsEvent>)
    requires Owned(owner, t.chat.threads)
    requires |es| > 0 && es[0].InitEvent?
    requires forall e :: e in es ==> FromServer(owner, e)
    ensures TabGood(owner, HandleAll(t, es))
  {
    hide Owned, TabGood, FromServer, Handle;
    if |es| == 1 {
      assert es[..0] == [];
      HandleKeeps(owner, t, es[0]);
    } else {
      var front := es[..|es| - 1];
      EventsKeep(owner, t, front);
      GoodIsOwned(owner, HandleAll(t, front));
      HandleKeeps(owner, HandleAll(t, front), es[|es| - 1]);
    }
  }

  lemma GoodIsOwned(owner: int -> string, t: Tab)
    requires TabGood(owner, t)
    ensures Owned(owner, t.chat.threads)
  {
  }

  /** A server id stands at one place at most, over all threads, and is in the seen set. */
  lemma IdsAreUnique(owner: int -> string, t: Tab, a: string, i: nat, b: string, j: nat)
    requires TabGood(owner, t)
    requires a in t.chat.threads && i < |t.chat.threads[a]|
    requires b in t.chat.threads && j < |t.chat.threads[b]|
    requires t.chat.threads[a][i].id == t.chat.threads[b][j].id > 0
    ensures a == b && i == j
    ensures t.chat.threads[a][i].id in t.chat.seen
  {
    hide Indexed;
    var m := t.chat.threads[a][i];
    assert m in t.chat.threads[a] && t.chat.threads[b][j] in t.chat.threads[b];
    assert OwnedThread(owner, a, t.chat.threads[a]) && OwnedThread(owner, b, t.chat.threads[b]);
    assert m.id in AllIds(t.chat.threads);
  }

  /** What the cache restores at boot is again fit for the first `init`. */
  lemma CacheIsOwned(owner: int -> string, threads: Threads)
    requires Owned(owner, threads)
    ensures Owned(owner, CapAll(threads))
  {
    hide Cap;
    forall a | a in threads ensures OwnedThread(owner, a, Cap(threads[a])) {
      CapOwned(owner, a, threads[a]);
    }
  }

  lemma CapOwned(owner: int -> string, a: string, t: seq<Msg>)
    requires OwnedThread(owner, a, t)
    ensures OwnedThread(owner, a, Cap(t))
  {
    hide Cap, CappedOff;
    CapDistinct(t);
    CapSplits(t);
  }
}
