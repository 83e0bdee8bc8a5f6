/** The dashboard's event handlers, updating its state in place. */
module DashboardState {
  import opened Options
  import opened MessageRows
  import opened DashboardSpec
  import opened ReplicaRuns
  import opened DashboardEvents

  /** The ids of the first `n` rows of a list. */
  function IdsUpTo(t: seq<Msg>, n: nat): set<int>
    requires n <= |t|
  {
    IdSet(t[..n])
  }

  function AllIdsOf(threads: Threads, agents: set<string>): set<int> {
    set a, m | a in agents && a in threads && m in threads[a] && m.id > 0 :: m.id
  }

  function MergeSome(threads: Threads, incoming: Threads, done: set<string>): Threads
    requires done <= incoming.Keys
  {
    map a | a in threads.Keys + done :: if a in done then MergeThread(Thread(threads, a), incoming[a]) else threads[a]
  }

  lemma UnheldGrows(have: set<int>, rows: seq<Msg>, n: nat)
    requires n < |rows|
    ensures Unheld(have, rows[..n + 1])
         == if rows[n].id in have then Unheld(have, rows[..n]) else Unheld(have, rows[..n]) + [rows[n]]
  {
    assert rows[..n + 1][..n] == rows[..n];
  }

  lemma PositiveGrows(t: seq<Msg>, n: nat)
    requires n < |t|
    ensures Positive(t[..n + 1]) == if t[n].id > 0 then Positive(t[..n]) + [t[n]] else Positive(t[..n])
  {
    assert t[..n + 1][..n] == t[..n];
  }

  lemma IndexGrows(agents: seq<Agent>, n: nat)
    requires n < |agents|
    ensures Index(agents[..n + 1]) == Index(agents[..n])[agents[n].name := agents[n]]
  {
    assert agents[..n + 1][..n] == agents[..n];
  }

  lemma WithoutGrows(agents: seq<Agent>, name: string, n: nat)
    requires n < |agents|
    ensures Without(agents[..n + 1], name)
         == if agents[n].name == name then Without(agents[..n], name) else Without(agents[..n], name) + [agents[n]]
  {
    assert agents[..n + 1][..n] == agents[..n];
  }

  lemma AllMerged(threads: Threads, incoming: Threads)
    ensures MergeSome(threads, incoming, incoming.Keys) == MergeDelta(threads, incoming)
  {
    hide MergeThread;
  }

  lemma MergeOneMore(threads: Threads, incoming: Threads, done: set<string>, a: string)
    requires done <= incoming.Keys && a in incoming && a !in done
    ensures MergeSome(threads, incoming, done + {a})
         == MergeSome(threads, incoming, done)[a := MergeThread(Thread(threads, a), incoming[a])]
    ensures Thread(MergeSome(threads, incoming, done), a) == Thread(threads, a)
  {
    hide MergeThread;
  }

  lemma IdsOneMore(threads: Threads, done: set<string>, a: string)
    requires a in threads
    ensures AllIdsOf(threads, done + {a}) == AllIdsOf(threads, done) + IdSet(threads[a])
  {
    forall k | k in IdSet(threads[a]) ensures k in AllIdsOf(threads, done + {a}) {
      var m :| m in threads[a] && m.id > 0 && m.id == k;
    }
  }

  lemma AllIdsDone(threads: Threads)
    ensures AllIdsOf(threads, threads.Keys) == AllIds(threads)
  {
  }

  method MergeList(existing: seq<Msg>, rows: seq<Msg>) returns (merged: seq<Msg>)
    ensures merged == MergeThread(existing, rows)
  {
    var have := IdSet(existing);
    merged := existing;
    for i := 0 to |rows|
      invariant merged == existing + Unheld(have, rows[..i])
    {
      UnheldGrows(have, rows, i);
      if rows[i].id !in have {
        merged := merged + [rows[i]];
      }
    }
    assert rows[..|rows|] == rows;
    merged := SortRows(merged);
  }

  /** Where the echo of `m` goes in a thread, searching back from its end. */
  method FindEcho(list: seq<Msg>, m: Msg) returns (k: int)
    ensures k == EchoSpot(list, m, |list| - 1)
  {
    var i := |list| - 1;
    while i >= 0 && i >= |list| - ECHO_WINDOW
      invariant -1 <= i < |list|
      invariant EchoSpot(list, m, |list| - 1) == EchoSpot(list, m, i)
    {
      if Echoes(list[i], m) {
        return i;
      }
      i := i - 1;
    }
    k := -1;
  }

  lemma NothingLeft(a: set<string>, b: set<string>)
    ensures |a - b| > 0 <==> !(a <= b)
  {
    if a - b == {} {
      forall x | x in a ensures x in b {
        assert x !in a - b;
      }
    } else {
      var x :| x in a - b;
    }
  }

  lemma IdsUpToGrows(t: seq<Msg>, n: nat)
    requires n < |t|
    ensures IdsUpTo(t, n + 1) == IdsUpTo(t, n) + (if t[n].id > 0 then {t[n].id} else {})
  {
    assert t[..n + 1] == t[..n] + [t[n]];
  }

  method CollectStale(selected: set<string>, known: set<string>) returns (stale: set<string>)
    ensures stale == selected - known
  {
    var todo;
    stale, todo := {}, selected;
    while todo != {}
      invariant todo <= selected && stale == (selected - todo) - known
      decreases todo
    {
      var name :| name in todo;
      if name !in known {
        stale := stale + {name};
      }
      todo := todo - {name};
    }
  }

  method DeleteAll(selected: set<string>, stale: set<string>) returns (kept: set<string>, removed: nat)
    requires stale <= selected
    ensures kept == selected - stale && removed == |stale|
  {
    var todo;
    kept, removed, todo := selected, 0, stale;
    while todo != {}
      invariant todo <= stale && kept == selected - (stale - todo) && removed == |stale| - |todo|
      decreases todo
    {
      var name :| name in todo;
      kept := kept - {name};
      removed := removed + 1;
      todo := todo - {name};
    }
  }

  /** `pruneSelection`: collect the unknown names, then delete them. */
  method PruneSelection(selected: set<string>, agents: seq<Agent>) returns (kept: set<string>, removed: nat)
    ensures kept == selected * Names(agents)
    ensures removed == |selected - Names(agents)|
  {
    hide Names;
    var stale := CollectStale(selected, Names(agents));
    kept, removed := DeleteAll(selected, stale);
    assert selected - (selected - Names(agents)) == selected * Names(agents);
  }

  method FilterOut(agents: seq<Agent>, name: string) returns (kept: seq<Agent>)
    ensures kept == Without(agents, name)
  {
    kept := [];
    for i := 0 to |agents|
      invariant kept == Without(agents[..i], name)
    {
      WithoutGrows(agents, name, i);
      if agents[i].name != name {
        kept := kept + [agents[i]];
      }
    }
    assert agents[..|agents|] == agents;
  }

  class Dashboard {
    var threads: Threads
    var seen: set<int>
    var agents: seq<Agent>
    var byName: map<string, Agent>
    var selected: set<string>

    ghost function View(): Tab
      reads this
    {
      Tab(Chat(threads, seen), Roster(agents, byName, selected))
    }

    method RebuildAgentIndex()
      modifies this`byName
      ensures byName == Index(agents)
    {
      byName := map[];
      for i := 0 to |agents|
        invariant byName == Index(agents[..i])
      {
        IndexGrows(agents, i);
        byName := byName[agents[i].name := agents[i]];
      }
      assert agents[..|agents|] == agents;
    }

    method RebuildSeen()
      modifies this`seen
      ensures seen == AllIds(threads)
    {
      hide AllIdsOf;
      seen := {};
      assert seen == AllIdsOf(threads, {}) by { NoAgentsNoIds(threads); }
      var todo, done := threads.Keys, {};
      while todo != {}
        invariant todo + done == threads.Keys && todo !! done
        invariant seen == AllIdsOf(threads, done)
        decreases todo
      {
        var a :| a in todo;
        var list := threads[a];
        ghost var before := seen;
        for i := 0 to |list|
          invariant seen == before + IdsUpTo(list, i)
        {
          IdsUpToGrows(list, i);
          if list[i].id > 0 {
            seen := seen + {list[i].id};
          }
        }
        assert list[..|list|] == list;
        IdsOneMore(threads, done, a);
        todo, done := todo - {a}, done + {a};
      }
      assert done == threads.Keys;
      AllIdsDone(threads);
    }

    method MergeThreads(incoming: Threads)
      modifies this`threads
      ensures threads == MergeDelta(old(threads), incoming)
    {
      hide MergeSome, MergeDelta, MergeThread;
      ghost var before := threads;
      NothingMerged(threads, incoming);
      var todo, done := incoming.Keys, {};
      while todo != {}
        invariant todo + done == incoming.Keys && todo !! done
        invariant threads == MergeSome(before, incoming, done)
        decreases todo
      {
        var a :| a in todo;
        MergeOneMore(before, incoming, done, a);
        var merged := MergeList(Thread(threads, a), incoming[a]);
        threads := threads[a := merged];
        todo, done := todo - {a}, done + {a};
      }
      assert done == incoming.Keys;
      AllMerged(before, incoming);
    }

    method HandleInit(delta: bool, incoming: Threads, roster: seq<Agent>)
      modifies this
      ensures View() == Handle(old(View()), InitEvent(delta, incoming, roster))
    {
      hide MergeDelta, Index, AllIds;
      agents := roster;
      if delta {
        MergeThreads(incoming);
      } else {
        threads := incoming;
      }
      RebuildSeen();
      RebuildAgentIndex();
    }

    method HandleAgentsUpdate(roster: seq<Agent>) returns (selectionChanged: bool)
      modifies this
      ensures View() == Handle(old(View()), AgentsUpdate(roster))
      ensures selectionChanged <==> !(old(selected) <= Names(roster))
    {
      agents := roster;
      RebuildAgentIndex();
      var removed;
      selected, removed := PruneSelection(selected, agents);
      selectionChanged := removed > 0;
      NothingLeft(old(selected), Names(roster));
    }

    method HandleAgentUpdate(g: Agent)
      modifies this
      ensures View() == Handle(old(View()), AgentUpdate(g))
    {
      if g.name in byName {
        var k := IndexOf(agents, byName[g.name], 0);
        if k >= 0 {
          agents := agents[k := g];
        }
      } else {
        agents := agents + [g];
      }
      byName := byName[g.name := g];
    }

    method HandleAgentDestroyed(name: string)
      modifies this
      ensures View() == Handle(old(View()), AgentDestroyed(name))
    {
      byName := byName - {name};
      agents := FilterOut(agents, name);
      selected := selected - {name};
      threads := threads - {name};
    }

    method HandleMessage(m: Msg)
      modifies this
      ensures View() == Handle(old(View()), Message(m))
    {
      if m.id > 0 && m.id in seen {
        return;
      }
      var list := Thread(threads, m.agent);
      var k := -1;
      if m.id > 0 {
        k := FindEcho(list, m);
      }
      if k >= 0 {
        list := list[k := m];
      } else {
        list := list + [m];
      }
      if m.id > 0 {
        seen := seen + {m.id};
      }
      threads := threads[m.agent := list];
    }

    method HandleMessageWithdrawn(m: Msg)
      modifies this
      ensures View() == Handle(old(View()), MessageWithdrawn(m))
    {
      if m.agent in threads {
        var list := threads[m.agent];
        var k := FindId(list, m.id, 0);
        if k >= 0 {
          threads := threads[m.agent := list[k := m]];
        } else {
          assert threads == threads[m.agent := list];
        }
      }
    }
  }

  lemma NoAgentsNoIds(threads: Threads)
    ensures AllIdsOf(threads, {}) == {}
  {
  }

  lemma NothingMerged(threads: Threads, incoming: Threads)
    ensures MergeSome(threads, incoming, {}) == threads
  {
  }

  // ── the cache ──

  /** The two keys of local storage; each write may fail, and so may the clean-up. */
  class ThreadCache {
    var blob: Option<Threads>
    var watermark: int

    method CapThread(t: seq<Msg>) returns (kept: seq<Msg>)
      ensures kept == Cap(t)
    {
      var positive := [];
      for i := 0 to |t|
        invariant positive == Positive(t[..i])
      {
        PositiveGrows(t, i);
        if t[i].id > 0 {
          positive := positive + [t[i]];
        }
      }
      assert t[..|t|] == t;
      kept := LastN(positive, PER_AGENT_CAP);
    }

    method CapThreads(threads: Threads) returns (capped: Threads, maxId: int)
      ensures capped == CapAll(threads) && IsMaxId(capped, maxId)
    {
      hide Cap;
      capped, maxId := map[], 0;
      var todo := threads.Keys;
      while todo != {}
        invariant todo <= threads.Keys && capped.Keys == threads.Keys - todo
        invariant forall a :: a in capped ==> capped[a] == Cap(threads[a])
        invariant IsMaxId(capped, maxId)
        decreases todo
      {
        var a :| a in todo;
        var kept := CapThread(threads[a]);
        ghost var before := maxId;
        for i := 0 to |kept|
          invariant 0 <= before <= maxId
          invariant forall k :: k in IdsUpTo(kept, i) ==> k <= maxId
          invariant maxId == before || maxId in IdsUpTo(kept, i)
        {
          IdsUpToGrows(kept, i);
          if kept[i].id > maxId {
            maxId := kept[i].id;
          }
        }
        assert kept[..|kept|] == kept;
        LargerMax(capped, a, kept, before, maxId);
        capped := capped[a := kept];
        todo := todo - {a};
      }
      assert capped == CapAll(threads);
    }

    /** Threads first, then the watermark; a failure clears both unless clearing fails as well. */
    method Persist(threads: Threads, threadsFit: bool, markFits: bool, clearsBlob: bool, clearsMark: bool)
      modifies this
      ensures threadsFit && markFits ==> blob == Some(CapAll(threads)) && IsMaxId(CapAll(threads), watermark)
      ensures threadsFit && !markFits && !clearsBlob ==> blob == Some(CapAll(threads)) && watermark == old(watermark)
      ensures !threadsFit && !clearsBlob ==> blob == old(blob) && watermark == old(watermark)
      ensures !(threadsFit && markFits) && clearsBlob ==>
        blob == None && watermark == if clearsMark then 0 else old(watermark)
    {
      var capped, maxId := CapThreads(threads);
      if threadsFit {
        blob := Some(capped);
        if markFits {
          watermark := maxId;
          return;
        }
      }
      if clearsBlob {
        blob := None;
        if clearsMark {
          watermark := 0;
        }
      }
    }

    method Load() returns (threads: Threads, since: int)
      ensures threads == CachedThreads(Store(blob, watermark)) && since == CachedSince(Store(blob, watermark))
      ensures match blob case None => threads == map[] && since == 0 case Some(t) => threads == t && since == watermark
    {
      match blob
      case None => threads, since := map[], 0;
      case Some(t) => threads, since := t, watermark;
    }
  }

  lemma LargerMax(capped: Threads, a: string, kept: seq<Msg>, before: int, after: int)
    requires IsMaxId(capped, before) && a !in capped
    requires before <= after && (forall k :: k in IdSet(kept) ==> k <= after) && (after == before || after in IdSet(kept))
    ensures IsMaxId(capped[a := kept], after)
  {
    var t := capped[a := kept];
    forall k | k in AllIds(t) ensures k <= after {
      var b: string, m: Msg :| b in t && m in t[b] && m.id > 0 && m.id == k;
      if b == a {
        assert k in IdSet(kept);
      } else {
        assert m in capped[b] && k in AllIds(capped);
      }
    }
    if after in IdSet(kept) {
      var m :| m in kept && m.id > 0 && m.id == after;
      assert m in t[a];
    } else if after > 0 {
      var b: string, m: Msg :| b in capped && m in capped[b] && m.id > 0 && m.id == after;
      assert m in t[b];
    }
  }
}
