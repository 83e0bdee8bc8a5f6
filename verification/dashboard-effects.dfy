/** What each WebSocket event does to the rows shown and to the roster, entry by entry. */
module DashboardEffects {
  import opened MessageRows
  import opened DashboardSpec
  import opened DashboardEvents

  // ── withdrawal ──

  /** The row at `i` is the first of its id in the list. */
  ghost predicate FirstOfId(list: seq<Msg>, i: nat) {
    i < |list| && forall j :: 0 <= j < i ==> list[j].id != list[i].id
  }

  /** The first row of the withdrawn id in that agent's thread becomes the withdrawn row; all else stays. */
  lemma WithdrawnEffect(t: Tab, m: Msg)
    ensures var s := Handle(t, MessageWithdrawn(m));
      && s.roster == t.roster && s.chat.seen == t.chat.seen
      && s.chat.threads.Keys == t.chat.threads.Keys
      && forall a :: a in t.chat.threads ==>
        var before, after := t.chat.threads[a], s.chat.threads[a];
        && |after| == |before|
        && forall i :: 0 <= i < |before| ==>
          after[i] == if a == m.agent && before[i].id == m.id && FirstOfId(before, i) then m else before[i]
  {
    if m.agent in t.chat.threads {
      var before := t.chat.threads[m.agent];
      var k := FindId(before, m.id, 0);
      forall i | 0 <= i < |before| && before[i].id == m.id && FirstOfId(before, i) ensures i == k {
        assert k >= 0;
        assert !(i < k) && !(k < i);
      }
      assert k >= 0 ==> FirstOfId(before, k);
    }
  }

  // ── a live row ──

  /** The optimistic row at `k` is the newest of the last ten rows that waits for `m`. */
  ghost predicate Takes(list: seq<Msg>, m: Msg, k: nat) {
    && m.id > 0 && k < |list| && |list| - 10 <= k && Waits(list[k], m)
    && forall j :: k < j < |list| ==> !Waits(list[j], m)
  }

  ghost predicate Waits(shown: Msg, m: Msg) {
    shown.id < 0 && shown.agent == m.agent && shown.direction == m.direction && shown.text == m.text
  }

  lemma {:induction false} EchoSpotTakes(list: seq<Msg>, m: Msg, i: int)
    requires -1 <= i < |list| && m.id > 0
    requires forall j :: i < j < |list| ==> !Waits(list[j], m)
    ensures var k := EchoSpot(list, m, i); if k >= 0 then Takes(list, m, k) else forall j :: 0 <= j < |list| ==> !Takes(list, m, j)
    decreases i + 1
  {
    if i >= 0 && i >= |list| - ECHO_WINDOW && !Waits(list[i], m) {
      EchoSpotTakes(list, m, i - 1);
    }
  }

  lemma ReceiveEffect(list: seq<Msg>, m: Msg)
    ensures forall k: nat :: Takes(list, m, k) ==> Receive(list, m) == list[k := m]
    ensures (forall k: nat :: !Takes(list, m, k)) ==> Receive(list, m) == list + [m]
  {
    if m.id > 0 {
      EchoSpotTakes(list, m, |list| - 1);
      var e := EchoSpot(list, m, |list| - 1);
      forall k: nat | Takes(list, m, k) ensures k == e {
        assert !(k < e) && !(e < k);
      }
    }
  }

  /**
   * A row seen before changes nothing. Any other takes the place of its optimistic row, or else stands
   * last in its agent's thread; its id has been seen from then on.
   */
  lemma MessageEffect(t: Tab, m: Msg)
    ensures var s := Handle(t, Message(m));
      if m.id > 0 && m.id in t.chat.seen then s == t
      else
        var list := if m.agent in t.chat.threads then t.chat.threads[m.agent] else [];
        && s.roster == t.roster
        && (forall i :: i in s.chat.seen <==> i in t.chat.seen || (i == m.id && i > 0))
        && s.chat.threads.Keys == t.chat.threads.Keys + {m.agent}
        && (forall a :: a in t.chat.threads && a != m.agent ==> s.chat.threads[a] == t.chat.threads[a])
        && (forall k: nat :: Takes(list, m, k) ==> s.chat.threads[m.agent] == list[k := m])
        && ((forall k: nat :: !Takes(list, m, k)) ==> s.chat.threads[m.agent] == list + [m])
  {
    hide Receive, Takes;
    ReceiveEffect(Thread(t.chat.threads, m.agent), m);
  }

  // ── init ──

  ghost predicate Holds(t: seq<Msg>, id: int) {
    exists m :: m in t && m.id == id && id > 0
  }

  lemma {:induction false} UnheldCounts(have: set<int>, rows: seq<Msg>, m: Msg)
    ensures multiset(Unheld(have, rows))[m] == if m.id in have then 0 else multiset(rows)[m]
  {
    if |rows| > 0 {
      UnheldCounts(have, rows[..|rows| - 1], m);
      assert rows == rows[..|rows| - 1] + [rows[|rows| - 1]];
    }
  }

  /** A merged thread: all rows held, the incoming rows of other ids, in order of time and id. */
  ghost predicate Merged(held: seq<Msg>, incoming: seq<Msg>, after: seq<Msg>) {
    && (forall m :: multiset(after)[m] == multiset(held)[m] + if Holds(held, m.id) then 0 else multiset(incoming)[m])
    && forall i, j :: 0 <= i < j < |after| ==>
      after[i].createdAt < after[j].createdAt || (after[i].createdAt == after[j].createdAt && after[i].id <= after[j].id)
  }

  lemma MergeEffect(held: seq<Msg>, incoming: seq<Msg>)
    ensures Merged(held, incoming, MergeThread(held, incoming))
  {
    var unheld := Unheld(IdSet(held), incoming);
    SortRowsSorts(held + unheld);
    forall m: Msg
      ensures multiset(MergeThread(held, incoming))[m]
           == multiset(held)[m] + if Holds(held, m.id) then 0 else multiset(incoming)[m]
    {
      UnheldCounts(IdSet(held), incoming, m);
      assert Holds(held, m.id) <==> m.id in IdSet(held);
    }
  }

  /** The index has a name exactly when the list has, and maps it to the last record of that name. */
  ghost predicate IndexesLast(agents: seq<Agent>, byName: map<string, Agent>) {
    && (forall n :: n in byName ==> exists g :: g in agents && g.name == n)
    && forall i :: 0 <= i < |agents| && (forall j :: i < j < |agents| ==> agents[j].name != agents[i].name) ==>
      agents[i].name in byName && byName[agents[i].name] == agents[i]
  }

  lemma {:induction false} IndexEffect(agents: seq<Agent>)
    ensures IndexesLast(agents, Index(agents))
    ensures forall g :: g in agents ==> g.name in Index(agents)
  {
    if |agents| > 0 {
      var rest, last := agents[..|agents| - 1], agents[|agents| - 1];
      assert agents == rest + [last];
      IndexEffect(rest);
      var index := Index(agents);
      forall i | 0 <= i < |agents| && (forall j :: i < j < |agents| ==> agents[j].name != agents[i].name)
        ensures agents[i].name in index && index[agents[i].name] == agents[i]
      {
        if i < |rest| {
          assert forall j :: i < j < |rest| ==> rest[j].name == agents[j].name;
          assert agents[|rest|].name != agents[i].name;
        }
      }
    }
  }

  /** A cold init replaces the threads, a delta merges into them; either way seen ids and index are rebuilt. */
  lemma InitEffect(t: Tab, delta: bool, threads: Threads, agents: seq<Agent>)
    ensures var s := Handle(t, InitEvent(delta, threads, agents));
      && s.roster.agents == agents && s.roster.selected == t.roster.selected && IndexesLast(agents, s.roster.byName)
      && (forall g :: g in agents ==> g.name in s.roster.byName)
      && (forall i :: i in s.chat.seen <==> exists a :: a in s.chat.threads && Holds(s.chat.threads[a], i))
      && (!delta ==> s.chat.threads == threads)
      && (delta ==>
        && s.chat.threads.Keys == t.chat.threads.Keys + threads.Keys
        && forall a :: a in s.chat.threads ==>
          if a in threads then Merged(if a in t.chat.threads then t.chat.threads[a] else [], threads[a], s.chat.threads[a])
          else s.chat.threads[a] == t.chat.threads[a])
  {
    hide Merged, MergeThread, IndexesLast, Index;
    IndexEffect(agents);
    var s := Handle(t, InitEvent(delta, threads, agents));
    SeenEffect(s.chat.threads);
    if delta {
      forall a | a in threads ensures Merged(Thread(t.chat.threads, a), threads[a], s.chat.threads[a]) {
        MergeEffect(Thread(t.chat.threads, a), threads[a]);
      }
    }
  }

  lemma SeenEffect(threads: Threads)
    ensures forall i :: i in AllIds(threads) <==> exists a :: a in threads && Holds(threads[a], i)
  {
    forall i | i in AllIds(threads) ensures exists a :: a in threads && Holds(threads[a], i) {
      var a: string, m: Msg :| a in threads && m in threads[a] && m.id > 0 && m.id == i;
      assert Holds(threads[a], i);
    }
  }

  // ── the roster ──

  /** `agents_update` replaces the roster and takes out of the selection what the roster does not name. */
  lemma AgentsEffect(t: Tab, agents: seq<Agent>)
    ensures var s := Handle(t, AgentsUpdate(agents));
      && s.chat == t.chat && s.roster.agents == agents && IndexesLast(agents, s.roster.byName)
      && (forall n :: n in s.roster.selected <==> n in t.roster.selected && exists g :: g in agents && g.name == n)
  {
    hide IndexesLast, Index;
    IndexEffect(agents);
  }

  /** `agent_update` puts the record in the slot of its name, or last when the name is new. */
  lemma AgentEffect(t: Tab, g: Agent)
    requires Indexed(t.roster)
    ensures var before := t.roster.agents; var s := Handle(t, AgentUpdate(g));
      && s.chat == t.chat && s.roster.selected == t.roster.selected
      && s.roster.byName == t.roster.byName[g.name := g]
      && (forall k :: 0 <= k < |before| && before[k].name == g.name ==> s.roster.agents == before[k := g])
      && ((forall h :: h in before ==> h.name != g.name) ==> s.roster.agents == before + [g])
  {
    var before := t.roster.agents;
    forall k | 0 <= k < |before| && before[k].name == g.name
      ensures Handle(t, AgentUpdate(g)).roster.agents == before[k := g]
    {
      assert before[k] in before;
      var i := IndexOf(before, t.roster.byName[g.name], 0);
      assert !(i < k) && !(k < i);
    }
  }

  lemma {:induction false} WithoutNone(agents: seq<Agent>, name: string)
    requires forall g :: g in agents ==> g.name != name
    ensures Without(agents, name) == agents
  {
    if |agents| > 0 {
      assert agents[|agents| - 1] in agents;
      WithoutNone(agents[..|agents| - 1], name);
    }
  }

  lemma WithoutStep(agents: seq<Agent>, last: Agent, name: string)
    ensures Without(agents + [last], name) == if last.name == name then Without(agents, name) else Without(agents, name) + [last]
  {
    assert (agents + [last])[..|agents|] == agents;
  }

  lemma {:induction false} WithoutJoins(a: seq<Agent>, b: seq<Agent>, name: string)
    requires forall g :: g in b ==> g.name != name
    ensures Without(a + b, name) == Without(a, name) + b
  {
    hide Without;
    if b == [] {
      assert a + b == a;
    } else {
      var front, last := b[..|b| - 1], b[|b| - 1];
      WithoutJoins(a, front, name);
      WithoutStep(a + front, last, name);
      assert b == front + [last] && last in b;
      assert a + b == (a + front) + [last];
      assert Without(a, name) + b == (Without(a, name) + front) + [last];
    }
  }

  lemma WithoutOne(a: seq<Agent>, gone: Agent, b: seq<Agent>)
    requires (forall g :: g in a ==> g.name != gone.name) && (forall g :: g in b ==> g.name != gone.name)
    ensures Without((a + [gone]) + b, gone.name) == a + b
  {
    hide Without;
    WithoutNone(a, gone.name);
    WithoutStep(a, gone, gone.name);
    WithoutJoins(a + [gone], b, gone.name);
  }

  lemma WithoutEffect(agents: seq<Agent>, name: string)
    requires NamesDistinct(agents)
    ensures forall k :: 0 <= k < |agents| && agents[k].name == name ==> Without(agents, name) == agents[..k] + agents[k + 1..]
    ensures (forall g :: g in agents ==> g.name != name) ==> Without(agents, name) == agents
  {
    hide Without;
    forall k | 0 <= k < |agents| && agents[k].name == name ensures Without(agents, name) == agents[..k] + agents[k + 1..] {
      OthersDiffer(agents, k);
      WithoutOne(agents[..k], agents[k], agents[k + 1..]);
      assert (agents[..k] + [agents[k]]) + agents[k + 1..] == agents;
    }
    if forall g :: g in agents ==> g.name != name {
      WithoutNone(agents, name);
    }
  }

  lemma OthersDiffer(agents: seq<Agent>, k: nat)
    requires NamesDistinct(agents) && k < |agents|
    ensures forall g :: g in agents[..k] || g in agents[k + 1..] ==> g.name != agents[k].name
  {
  }

  /** `agent_destroyed` takes the name out of agents, index, selection and threads, and nothing else. */
  lemma DestroyedEffect(t: Tab, name: string)
    requires Indexed(t.roster)
    ensures var before := t.roster.agents; var s := Handle(t, AgentDestroyed(name));
      && (forall k :: 0 <= k < |before| && before[k].name == name ==> s.roster.agents == before[..k] + before[k + 1..])
      && ((forall g :: g in before ==> g.name != name) ==> s.roster.agents == before)
      && (forall n :: n in s.roster.byName <==> n in t.roster.byName && n != name)
      && (forall n :: n in s.roster.byName ==> s.roster.byName[n] == t.roster.byName[n])
      && (forall n :: n in s.roster.selected <==> n in t.roster.selected && n != name)
      && (forall a :: a in s.chat.threads <==> a in t.chat.threads && a != name)
      && (forall a :: a in s.chat.threads ==> s.chat.threads[a] == t.chat.threads[a])
      && s.chat.seen == t.chat.seen
  {
    hide Without, NamesDistinct, Names;
    WithoutEffect(t.roster.agents, name);
  }

  // ── sending and the cache ──

  /** A failed send takes out the first row of that id and no other. */
  lemma RemoveEffect(list: seq<Msg>, id: int)
    ensures forall k :: 0 <= k < |list| && list[k].id == id && FirstOfId(list, k) ==> Remove(list, id) == list[..k] + list[k + 1..]
    ensures (forall k :: 0 <= k < |list| ==> list[k].id != id) ==> Remove(list, id) == list
  {
    forall k | 0 <= k < |list| && list[k].id == id && FirstOfId(list, k) ensures k == FindId(list, id, 0) {
      var f := FindId(list, id, 0);
      assert f >= 0 && !(f < k) && !(k < f);
    }
  }

  /** `p` is the server rows of `t` in order; `at` says where each row of `p` stands in `t`. */
  ghost predicate KeepsServerRows(t: seq<Msg>, p: seq<Msg>, at: seq<nat>) {
    && |at| == |p|
    && (forall i :: 0 <= i < |p| ==> at[i] < |t| && p[i] == t[at[i]] && t[at[i]].id > 0)
    && (forall i, j :: 0 <= i < j < |at| ==> at[i] < at[j])
    && (forall k :: 0 <= k < |t| && t[k].id > 0 ==> k in at)
  }

  lemma OneMoreRow(t: seq<Msg>, p: seq<Msg>, at: seq<nat>, last: Msg)
    requires KeepsServerRows(t, p, at)
    ensures last.id > 0 ==> KeepsServerRows(t + [last], p + [last], at + [|t|])
    ensures last.id <= 0 ==> KeepsServerRows(t + [last], p, at)
  {
    forall k | 0 <= k < |t| && t[k].id > 0 ensures k in at + [|t|] {
      assert k in at;
    }
    assert (at + [|t|])[|at|] == |t|;
  }

  lemma {:induction false} PositiveKeepsServerRows(t: seq<Msg>) returns (at: seq<nat>)
    ensures KeepsServerRows(t, Positive(t), at)
  {
    if |t| == 0 {
      at := [];
    } else {
      hide KeepsServerRows;
      var rest, last := t[..|t| - 1], t[|t| - 1];
      var front := PositiveKeepsServerRows(rest);
      OneMoreRow(rest, Positive(rest), front, last);
      assert t == rest + [last];
      at := if last.id > 0 then front + [|rest|] else front;
    }
  }

  /** The cache keeps the newest 200 server rows of each thread, or all when there are fewer, in their order. */
  lemma CapEffect(threads: Threads, a: string) returns (server: seq<Msg>, at: seq<nat>)
    requires a in threads
    ensures CapAll(threads).Keys == threads.Keys
    ensures KeepsServerRows(threads[a], server, at)
    ensures |server| <= 200 ==> CapAll(threads)[a] == server
    ensures |server| > 200 ==> CapAll(threads)[a] == server[|server| - 200..]
  {
    server := Positive(threads[a]);
    at := PositiveKeepsServerRows(threads[a]);
  }
}
