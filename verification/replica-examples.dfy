/** Runs of the dashboard on which a row of the server gets lost. */
module ReplicaExamples {
  import opened Options
  import opened MessageRows
  import opened DashboardSpec
  import opened ReplicaSegments
  import opened ReplicaRuns
  import opened ReplicaContents

  // ── an echo out of order can lose a row ──

  function ServerRow(agent: string, text: string, id: int): Msg {
    Msg(id, agent, ToAgent, text, id, false)
  }

  function ReceiveAll(t: seq<Msg>, rows: seq<Msg>): seq<Msg> {
    if |rows| == 0 then t else Receive(ReceiveAll(t, rows[..|rows| - 1]), rows[|rows| - 1])
  }

  lemma {:induction false} ReceiveStrangers(t: seq<Msg>, rows: seq<Msg>)
    requires forall m :: m in t ==> m.id > 0
    requires forall m :: m in rows ==> m.id > 0
    ensures ReceiveAll(t, rows) == t + rows
  {
    if |rows| > 0 {
      ReceiveStrangers(t, rows[..|rows| - 1]);
      assert rows == rows[..|rows| - 1] + [rows[|rows| - 1]];
    }
  }

  lemma SwappedEcho(agent: string, one: Msg, two: Msg, later: seq<Msg>, log: seq<Msg>)
    requires one == ServerRow(agent, "other", 1) && two == ServerRow(agent, "sent", 2)
    requires (forall m :: m in later ==> m.id > 0) && log == [one, two] + later
    ensures ReceiveAll([Msg(-1, agent, ToAgent, "sent", 0, false)], log) == [two, one] + later
  {
    var shown := Msg(-1, agent, ToAgent, "sent", 0, false);
    assert "other"[0] != "sent"[0];
    assert ReceiveAll([shown], []) == [shown];
    assert [one][..0] == [];
    assert Receive([shown], one) == [shown, one];
    assert ReceiveAll([shown], [one]) == [shown, one];
    assert [one, two][..1] == [one];
    assert EchoSpot([shown, one], two, 1) == EchoSpot([shown, one], two, 0) == 0;
    assert Receive([shown, one], two) == [two, one];
    assert ReceiveAll([shown], [one, two]) == [two, one];
    ReceiveAllAppends([shown], [one, two], later);
    ReceiveStrangers([two, one], later);
  }

  lemma {:induction false} ReceiveAllAppends(t: seq<Msg>, a: seq<Msg>, b: seq<Msg>)
    ensures ReceiveAll(t, a + b) == ReceiveAll(ReceiveAll(t, a), b)
  {
    if |b| == 0 {
      assert a + b == a;
    } else {
      ReceiveAllAppends(t, a, b[..|b| - 1]);
      assert (a + b)[..|a + b| - 1] == a + b[..|b| - 1];
    }
  }

  lemma SwappedGapFree(log: seq<Msg>, agent: string, one: Msg, two: Msg, later: seq<Msg>)
    requires one == ServerRow(agent, "other", 1) && two == ServerRow(agent, "sent", 2)
    requires later == seq(199, i => ServerRow(agent, "later", i + 3)) && log == [one, two] + later
    ensures LogGood(log) && GapFree(log, agent, [two, one] + later, 201)
  {
    var t := [two, one] + later;
    assert forall i :: 0 <= i < |log| ==> log[i].id == i + 1 && log[i].agent == agent && log[i].createdAt == i + 1;
    forall m | m in t ensures m in log && InLog(log, m) {
      var i :| 0 <= i < |t| && t[i] == m;
      var k := if i == 0 then 1 else if i == 1 then 0 else i;
      assert log[k] == m && SameStamp(m, log[k]);
    }
    forall m | m in log ensures m in t {
      var i :| 0 <= i < |log| && log[i] == m;
      var k := if i == 0 then 1 else if i == 1 then 0 else i;
      assert t[k] == m;
    }
    assert IdSet(t) == IdsIn(log, agent, 0, 201);
    assert IsSegment(log, agent, t, 0, 201);
  }

  // ── the run ──

  const BLANK: World := World([], Chat(map[], {}), 0, Store(None, 0), 0, Down, 0, false)

  /** Connected, nothing in flight, and one thread: of this agent. */
  ghost predicate Quiet(w: World, agent: string, log: seq<Msg>, t: seq<Msg>) {
    && w.log == log && w.chat.threads == map[agent := t] && (forall id :: id in w.chat.seen ==> id <= LastId(log))
    && w.link == Up(None, []) && w.synced && w.known == LastId(log)
  }

  lemma Longer(ws: seq<World>, es: seq<Event>, e: Event, w: World)
    requires IsRun(ws, es) && Step(ws[|es|], e, w)
    ensures IsRun(ws + [w], es + [e])
  {
    hide Step, Fresh;
  }

  /** A tab connects to an empty log, and a row is shown on sending. */
  lemma Opens(shown: Msg) returns (ws: seq<World>, es: seq<Event>)
    requires shown.id < 0
    ensures IsRun(ws, es) && Quiet(ws[|es|], shown.agent, [], [shown])
  {
    hide IsRun;
    ws, es := Connects();
    var w := ws[|es|];
    var w' := SetThread(w, shown.agent, Thread(w.chat.threads, shown.agent) + [shown]);
    assert Thread(w.chat.threads, shown.agent) + [shown] == [shown];
    assert map[][shown.agent := [shown]] == map[shown.agent := [shown]];
    Longer(ws, es, Send(shown), w');
    ws, es := ws + [w'], es + [Send(shown)];
  }

  lemma Connects() returns (ws: seq<World>, es: seq<Event>)
    ensures IsRun(ws, es)
    ensures var w := ws[|es|];
            w.log == [] && w.chat == Chat(map[], {}) && w.link == Up(None, []) && w.synced && w.known == 0
  {
    var w1 := BLANK.(link := Dialing(0));
    var w2 := Accepted(w1, 0);
    assert AgentsAfter([], 0) == {} && Window([]) == map[];
    var w3 := Delivered(w2);
    assert AllIds(map[]) == {};
    ws, es := [BLANK, w1, w2, w3], [Dial, Accept, Deliver];
    assert Step(BLANK, Dial, w1) && Step(w1, Accept, w2) && Step(w2, Deliver, w3);
  }

  /** A row is appended on the server and handed to the tab. */
  lemma Arrives(ws: seq<World>, es: seq<Event>, agent: string, log: seq<Msg>, t: seq<Msg>, row: Msg)
    returns (ws': seq<World>, es': seq<Event>)
    requires IsRun(ws, es) && Quiet(ws[|es|], agent, log, t) && row.agent == agent && LogGood(log + [row])
    ensures IsRun(ws', es') && Quiet(ws'[|es'|], agent, log + [row], Receive(t, row))
  {
    hide Fresh, Receive;
    var w := ws[|es|];
    NewestRow(log, row);
    var w1 := Appended(w, row);
    assert w1.link.queue == [Live(row)] by { assert [] + [Live(row)] == [Live(row)]; }
    var w2 := Delivered(w1);
    assert map[agent := t][agent := Receive(t, row)] == map[agent := Receive(t, row)];
    assert [Live(row)][1..] == [];
    Longer(ws, es, Append(row), w1);
    Longer(ws + [w1], es + [Append(row)], Deliver, w2);
    ws', es' := ws + [w1] + [w2], es + [Append(row)] + [Deliver];
  }

  lemma NewestRow(log: seq<Msg>, row: Msg)
    requires LogGood(log + [row])
    ensures LogGood(log) && row.id > 0 && row.id > LastId(log) && LastId(log + [row]) == row.id
    ensures forall m :: m in log ==> m.createdAt <= row.createdAt
  {
    var all := log + [row];
    assert all[|log|] == row && forall i :: 0 <= i < |log| ==> all[i] == log[i];
  }

  lemma {:induction false} AllArrive(shown: Msg, rows: seq<Msg>) returns (ws: seq<World>, es: seq<Event>)
    requires shown.id < 0 && LogGood(rows) && forall m :: m in rows ==> m.agent == shown.agent
    ensures IsRun(ws, es) && Quiet(ws[|es|], shown.agent, rows, ReceiveAll([shown], rows))
  {
    hide Quiet, IsRun;
    if |rows| == 0 {
      ws, es := Opens(shown);
    } else {
      var rest, last := rows[..|rows| - 1], rows[|rows| - 1];
      assert rows == rest + [last];
      NewestRow(rest, last);
      ws, es := AllArrive(shown, rest);
      ws, es := Arrives(ws, es, shown.agent, rest, ReceiveAll([shown], rest), last);
    }
  }

  /** The cache is written and the tab reloaded: what it then shows is the capped thread. */
  lemma Reloads(ws: seq<World>, es: seq<Event>, agent: string, log: seq<Msg>, t: seq<Msg>, m: int)
    returns (ws': seq<World>, es': seq<Event>)
    requires IsRun(ws, es) && Quiet(ws[|es|], agent, log, t) && IsMaxId(map[agent := Cap(t)], m)
    ensures IsRun(ws', es') && ws'[|es'|].log == log && ws'[|es'|].known == LastId(log)
    ensures Thread(ws'[|es'|].chat.threads, agent) == Cap(t)
  {
    hide Fresh, IsMaxId, Cap, LastId;
    var w := ws[|es|];
    assert CapAll(map[agent := t]) == map[agent := Cap(t)];
    var w1 := Persisted(w, m);
    var w2 := Reloaded(w1);
    Longer(ws, es, Persist, w1);
    Longer(ws + [w1], es + [Persist], Reload, w2);
    ws', es' := ws + [w1] + [w2], es + [Persist] + [Reload];
  }

  /**
   * A row is shown on sending, another row of the agent arrives, then the echo takes the earlier
   * place. After 199 more rows, a cache write and a reload the tab shows row 1 but not row 2.
   */
  lemma EchoCanLoseARow(agent: string) returns (ws: seq<World>, es: seq<Event>)
    ensures IsRun(ws, es)
    ensures !GapFree(ws[|es|].log, agent, Thread(ws[|es|].chat.threads, agent), ws[|es|].known)
  {
    hide GapFree, IsRun, Quiet, LogGood, Cap, LastId;
    var later := seq(199, i => ServerRow(agent, "later", i + 3));
    var one, two := ServerRow(agent, "other", 1), ServerRow(agent, "sent", 2);
    var log, t := [one, two] + later, [two, one] + later;
    var shown := Msg(-1, agent, ToAgent, "sent", 0, false);
    SwappedEcho(agent, one, two, later, log);
    SwappedGapFree(log, agent, one, two, later);
    SwappedCap(agent, log, one, two, later);
    ws, es := AllArrive(shown, log);
    LargestId(agent, one, later);
    ws, es := Reloads(ws, es, agent, log, t, 201);
  }

  /** The cap of 200 cuts row 2 off and keeps row 1. */
  lemma SwappedCap(agent: string, log: seq<Msg>, one: Msg, two: Msg, later: seq<Msg>)
    requires one == ServerRow(agent, "other", 1) && two == ServerRow(agent, "sent", 2)
    requires later == seq(199, i => ServerRow(agent, "later", i + 3)) && log == [one, two] + later
    requires GapFree(log, agent, [two, one] + later, 201)
    ensures Cap([two, one] + later) == [one] + later && !GapFree(log, agent, Cap([two, one] + later), 201)
    ensures LastId(log) == 201
  {
    hide GapFree, Cap, CappedOff, ServerRow;
    var t := [two, one] + later;
    assert one.id == 1 && two.id == 2 && forall i :: 0 <= i < 199 ==> later[i].id == i + 3 by { NumberedRows(agent, one, two, later); }
    assert t == [two] + ([one] + later);
    CutsOne(t, two, [one] + later);
    assert ([one] + later)[0] == one;
    CapIff(log, agent, t, 201);
    assert log[200] == later[198];
  }

  lemma NumberedRows(agent: string, one: Msg, two: Msg, later: seq<Msg>)
    requires one == ServerRow(agent, "other", 1) && two == ServerRow(agent, "sent", 2)
    requires later == seq(199, i => ServerRow(agent, "later", i + 3))
    ensures one.id == 1 && two.id == 2 && forall i :: 0 <= i < 199 ==> later[i].id == i + 3
  {
  }

  /** Of 201 server rows the cap cuts off the first. */
  lemma CutsOne(t: seq<Msg>, first: Msg, rest: seq<Msg>)
    requires t == [first] + rest && |rest| == 200 && forall m :: m in t ==> m.id > 0
    ensures Cap(t) == rest && CappedOff(t) == [first]
  {
    hide Positive;
    PositiveOfServerRows(t);
    assert t[1..] == rest && t[..1] == [first];
  }

  lemma LargestId(agent: string, one: Msg, later: seq<Msg>)
    requires one == ServerRow(agent, "other", 1) && later == seq(199, i => ServerRow(agent, "later", i + 3))
    ensures IsMaxId(map[agent := [one] + later], 201)
  {
    var threads := map[agent := [one] + later];
    assert later[198] in threads[agent] && later[198].id == 201;
    assert 201 in AllIds(threads);
  }

  // ── a watermark that leads ──

  /** Another tab has cached row 2, so this one, holding row 1, asks for the rows after 2 only. */
  lemma LeadingWatermarkLosesARow(agent: string)
    ensures
      var one, two, three := ServerRow(agent, "x", 1), ServerRow(agent, "x", 2), ServerRow(agent, "x", 3);
      var log := [one, two, three];
      && LogGood(log) && GapFree(log, agent, [one], 1) && IsDelta(log, agent, [three], 2, 3)
      && !GapFree(log, agent, MergeThread([one], [three]), 3)
  {
    var one, two, three := ServerRow(agent, "x", 1), ServerRow(agent, "x", 2), ServerRow(agent, "x", 3);
    var log := [one, two, three];
    hide MergeThread, GapFree;
    SmallSegments(agent, one, two, three);
    assert two in log && 2 in IdsIn(log, agent, 1, 2);
    assert one in [one] && 1 in IdSet([one]);
    DeltaGapFreeIff(log, agent, [one], [three], 2, 1, 3);
  }

  lemma SmallSegments(agent: string, one: Msg, two: Msg, three: Msg)
    requires one == ServerRow(agent, "x", 1) && two == ServerRow(agent, "x", 2) && three == ServerRow(agent, "x", 3)
    ensures GapFree([one, two, three], agent, [one], 1) && IsDelta([one, two, three], agent, [three], 2, 3)
  {
    var log := [one, two, three];
    assert SameStamp(one, log[0]) && SameStamp(three, log[2]);
    assert IdSet([one]) == {1} == IdsIn(log, agent, 0, 1);
    assert IdSet([three]) == {3} == IdsIn(log, agent, 2, 3);
    assert IsSegment(log, agent, [one], 0, 1);
  }

  // ── a withdrawal that is missed ──

  /** A row withdrawn while the tab is disconnected stays as it was: a delta brings newer rows only. */
  lemma WithdrawnWhileAway(agent: string) returns (ws: seq<World>, es: seq<Event>)
    ensures IsRun(ws, es) && ws[|es|].link == Up(None, []) && !Agrees(ws[|es|])
    ensures |ws[|es|].log| == 1 && ws[|es|].log[0].withdrawn
  {
    hide IsRun, Quiet;
    var one, shown := ServerRow(agent, "x", 1), Msg(-1, agent, ToAgent, "y", 0, false);
    ws, es := AllArrive(shown, [one]);
    assert "x"[0] != "y"[0];
    assert ReceiveAll([shown], [one]) == [shown, one] by { OneReceived(shown, one); }
    ws, es := GoesAway(ws, es, agent, one, [shown, one]);
    ws, es := ComesBack(ws, es, agent, one, [shown, one]);
  }

  lemma OneReceived(shown: Msg, one: Msg)
    requires one.id > 0 && one.text != shown.text
    ensures ReceiveAll([shown], [one]) == [shown, one]
  {
    assert [one][..0] == [];
    assert ReceiveAll([shown], []) == [shown];
    assert Receive([shown], one) == [shown, one];
  }

  /** The cache is written, the connection drops, and the row is withdrawn. */
  lemma GoesAway(ws: seq<World>, es: seq<Event>, agent: string, one: Msg, t: seq<Msg>) returns (ws': seq<World>, es': seq<Event>)
    requires IsRun(ws, es) && Quiet(ws[|es|], agent, [one], t) && one.id == 1 && one in t && forall m :: m in t ==> m.id <= 1
    ensures IsRun(ws', es')
    ensures var w := ws'[|es'|];
            && w.log == [one.(withdrawn := true)] && w.chat.threads == map[agent := t]
            && w.link == Down && w.store.blob.Some? && w.store.watermark == 1
  {
    hide Fresh, Cap;
    var w := ws[|es|];
    CappedMax(agent, one, t);
    var w1 := Persisted(w, 1);
    var w2 := w1.(link := Down);
    var w3 := MarkWithdrawn(w2, 0);
    assert CapAll(map[agent := t]) == map[agent := Cap(t)];
    Longer(ws, es, Persist, w1);
    Longer(ws + [w1], es + [Persist], Drop, w2);
    Longer(ws + [w1] + [w2], es + [Persist] + [Drop], Withdraw(0), w3);
    ws', es' := ws + [w1] + [w2] + [w3], es + [Persist] + [Drop] + [Withdraw(0)];
  }

  lemma CappedMax(agent: string, one: Msg, t: seq<Msg>)
    requires one.id == 1 && one in t && forall m :: m in t ==> m.id <= 1
    ensures IsMaxId(map[agent := Cap(t)], 1)
  {
    hide Cap, CappedOff;
    CapSplits(t);
    var threads := map[agent := Cap(t)];
    assert Cap(t) == threads[agent];
    KeepsOne(t, one);
    assert 1 in AllIds(threads);
  }

  lemma KeepsOne(t: seq<Msg>, one: Msg)
    requires one.id == 1 && one in t && forall m :: m in t ==> m.id <= 1
    ensures exists m :: m in Cap(t) && m.id == 1
  {
    var p := Positive(t);
    assert one in p;
    assert Cap(t)[|Cap(t)| - 1] in Cap(t) && Cap(t)[|Cap(t)| - 1] in p;
  }

  /** A delta after the cached watermark: it holds nothing, and the thread stays as it was. */
  lemma ComesBack(ws: seq<World>, es: seq<Event>, agent: string, one: Msg, t: seq<Msg>) returns (ws': seq<World>, es': seq<Event>)
    requires IsRun(ws, es) && one.id == 1 && !one.withdrawn && one in t
    requires var w := ws[|es|];
             && w.log == [one.(withdrawn := true)] && w.chat.threads == map[agent := t]
             && w.link == Down && w.store.blob.Some? && w.store.watermark == 1
    ensures IsRun(ws', es') && ws'[|es'|].link == Up(None, []) && !Agrees(ws'[|es'|])
    ensures ws'[|es'|].log == [one.(withdrawn := true)]
  {
    hide Fresh;
    var w := ws[|es|];
    var w1 := w.(link := Dialing(1));
    var w2 := Accepted(w1, 1);
    assert AgentsAfter(w.log, 1) == {};
    assert ThreadsSince(w.log, 1) == map[];
    var w3 := Delivered(w2);
    assert MergeDelta(w.chat.threads, map[]) == w.chat.threads;
    Longer(ws, es, Dial, w1);
    Longer(ws + [w1], es + [Dial], Accept, w2);
    Longer(ws + [w1] + [w2], es + [Dial] + [Accept], Deliver, w3);
    ws', es' := ws + [w1] + [w2] + [w3], es + [Dial] + [Accept] + [Deliver];
    assert one in Thread(w3.chat.threads, agent) && one !in w3.log;
  }
}
