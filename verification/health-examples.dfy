/** Runs from the empty world on which something happens that one would not expect. */
module HealthExamples {
  import opened Options
  import opened AgentsTable
  import opened HealthSpec
  import opened HealthRuns
  import opened HealthProperties
  import opened FrozenPanes

  const EMPTY: World := World(
    Db(map[], map[], 0, []),
    Monitor(Counters(map[], map[]), Screen(map[], map[], map[], map[], map[]), map[], map[], map[], map[]),
    map[], 0)

  const BLANK: AgentRecord := AgentRecord("a", "claude", Void, Some("p"), None, None, None, None, None, false, 0, 0)

  lemma EmptyIsGood()
    ensures WorldGood(EMPTY)
  {
  }

  // ── a frozen pane that heals ──

  /** A run from the empty world in which every answered capture of the agent gives `p`. */
  ghost predicate FrozenRun(o: Oracle, ws: seq<World>, es: seq<Event>, p: string) {
    IsRun(o, ws, es) && ws[0] == EMPTY && forall k :: 0 <= k < |es| ==> Frozen(ws[k], es[k], "a", p)
  }

  lemma Longer(o: Oracle, ws: seq<World>, es: seq<Event>, p: string, e: Event) returns (ws': seq<World>, es': seq<Event>)
    requires FrozenRun(o, ws, es, p) && Frozen(ws[|es|], e, "a", p)
    ensures FrozenRun(o, ws', es', p) && ws <= ws' && es <= es' && |es'| == |es| + 1 && es'[|es|] == e
    ensures ws'[|es'|] == Step(o, ws[|es|], e)
  {
    hide Step, Frozen;
    ws', es' := ws + [Step(o, ws[|es|], e)], es + [e];
  }

  /** A pane with an exit message, a live sign and no prompt. */
  predicate Ambiguous(o: Oracle, p: string) {
    ExitMessage(o, p) && Alive(o, p) && !ShellPrompt(o, p) && p != ""
  }

  /** No detection is configured; the agent is on a proxy. */
  predicate Calm(w: World) {
    && w.db.detection == map[] && w.m.compiled == map[]
    && "a" in w.db.rows && w.db.rows["a"].name == "a" && w.db.rows["a"].proxyId.Some?
  }

  predicate Watched(w: World, shell: nat) {
    && Calm(w) && w.db.rows["a"].state == Active && "a" !in w.m.healedAt
    && CountOf(w.m.counters, ShellCounter, "a") == shell
    && (shell == 0 ==> "a" !in w.m.screen.lastPaneSnapshot)
  }

  /** Three fast captures in flight, begun with the record `a0`. */
  predicate Late(w: World, a0: AgentRecord, from: nat) {
    a0.name == "a" && forall id :: from <= id <= 3 ==> id in w.polls && w.polls[id] == FastCapture(a0)
  }

  predicate Down(w: World, a0: AgentRecord, refusals: nat, heal: nat, stored: string) {
    && Calm(w) && w.db.rows["a"].state == Failed && w.db.rows["a"].version != a0.version
    && "a" !in w.m.screen.lastPaneSnapshot && StoredSnapshot(w.m, "a") == Some(stored)
    && CountOf(w.m.counters, CaptureCounter, "a") == refusals
    && CountOf(w.m.counters, HealCounter, "a") == heal
  }

  lemma Keys()
    ensures Key(CaptureCounter, "a") == "a" && Key(ShellCounter, "a") == "shell_a" && Key(HealCounter, "a") == "heal_a"
  {
  }

  lemma Boots(o: Oracle, p: string) returns (ws: seq<World>, es: seq<Event>)
    ensures FrozenRun(o, ws, es, p) && Watched(ws[|es|], 0) && ws[|es|].polls == map[]
    ensures ws[|es|].db.births == 1 && ws[|es|].db.rows["a"] == BLANK.(state := Active, version := 1)
  {
    ws, es := [EMPTY], [];
    ws, es := Longer(o, ws, es, p, Create(BLANK));
    ws, es := Longer(o, ws, es, p, Lifecycle(BLANK, Active, Nothing));
  }

  lemma Starts(o: Oracle, w: World, id: nat)
    requires Watched(w, 0) && id !in w.polls
    ensures var w1 := Step(o, w, StartFast(id, "a"));
            Step(o, w1, ResumeActivity(id, Unavailable)) == w.(polls := w.polls[id := FastCapture(w.db.rows["a"])])
  {
    assert w.m.compiled - {w.db.rows["a"].engine} == w.m.compiled;
  }

  lemma StartsFull(o: Oracle, w: World, id: nat, shell: nat)
    requires Watched(w, shell) && id !in w.polls
    ensures var w1 := Step(o, w, StartFull(id, "a"));
            Step(o, w1, ResumeActivity(id, Unavailable)) == w.(polls := w.polls[id := FullCapture(w.db.rows["a"])])
  {
    assert w.m.compiled - {w.db.rows["a"].engine} == w.m.compiled;
  }

  lemma Launched(o: Oracle, ws: seq<World>, es: seq<Event>, p: string, id: nat, full: bool, shell: nat)
    returns (ws': seq<World>, es': seq<Event>)
    requires FrozenRun(o, ws, es, p) && Watched(ws[|es|], if full then shell else 0) && id !in ws[|es|].polls
    ensures FrozenRun(o, ws', es', p) && ws <= ws' && es <= es'
    ensures var w := ws[|es|];
            ws'[|es'|] == w.(polls := w.polls[id := if full then FullCapture(w.db.rows["a"]) else FastCapture(w.db.rows["a"])])
  {
    hide Step, Watched;
    if full {
      StartsFull(o, ws[|es|], id, shell);
      ws', es' := Longer(o, ws, es, p, StartFull(id, "a"));
      ws', es' := Longer(o, ws', es', p, ResumeActivity(id, Unavailable));
    } else {
      Starts(o, ws[|es|], id);
      ws', es' := Longer(o, ws, es, p, StartFast(id, "a"));
      ws', es' := Longer(o, ws', es', p, ResumeActivity(id, Unavailable));
    }
  }

  /** The writes of a live pane's poll leave name, proxy and state. */
  predicate SameAgent(db: Db, db': Db) {
    && db'.detection == db.detection && "a" in db.rows && "a" in db'.rows
    && db'.rows["a"].name == db.rows["a"].name && db'.rows["a"].proxyId == db.rows["a"].proxyId
    && db'.rows["a"].state == db.rows["a"].state && db'.rows["a"].version >= db.rows["a"].version
  }

  lemma WriteSame(db: Db, actor: Actor, extra: Extra, now: int)
    requires "a" in db.rows && db.rows["a"].name == "a"
    ensures var db' := Write(db, actor, db.rows["a"], db.rows["a"].state, extra, now).db;
            SameAgent(db, db') && db'.rows["a"].version == db.rows["a"].version + 1
  {
  }

  lemma ContextSame(o: Oracle, db: Db, m: Monitor, a: AgentRecord, pane: string, now: int)
    requires "a" in db.rows && db.rows["a"].name == "a" && a.name == "a"
    ensures SameAgent(db, RecordContextPercent(o, db, m, a, pane, now).0)
  {
    hide Write;
    var pct := ContextPct(o, GetDetection(o, db, m, a.engine).1, a.engine, pane);
    if pct.Some? { WriteSame(db, ContextRead, Context(pct.value, now), now); }
  }

  /** Without a detection config the first diff of an agent is not idle. */
  lemma FirstDiff(o: Oracle, db: Db, m: Monitor, a: AgentRecord, pane: string, now: int)
    requires db.detection == map[] && m.compiled == map[] && a.name !in m.screen.lastPaneSnapshot
    ensures var (m', isIdle) := CheckScreenDiff(o, db, m, a, pane, now);
            !isIdle && m' == m.(screen := m'.screen)
  {
    assert m.compiled - {a.engine} == m.compiled;
  }

  lemma LivePaneSame(o: Oracle, db: Db, m: Monitor, a: AgentRecord, pane: string, now: int)
    requires db.detection == map[] && m.compiled == map[] && "a" !in m.screen.lastPaneSnapshot
    requires "a" in db.rows && db.rows["a"].name == "a" && a.name == "a" && a.state == Active
    ensures var s := AfterLivePane(o, db, m, a, pane, now);
            && s.next.None? && SameAgent(db, s.db) && s.db.rows["a"].version > db.rows["a"].version
            && s.m == m.(screen := s.m.screen)
  {
    hide RecordContextPercent, CheckScreenDiff, Write;
    ContextSame(o, db, m, a, pane, now);
    NoContextConfig(o, db, m, a, pane, now);
    var (db1, m1) := RecordContextPercent(o, db, m, a, pane, now);
    FirstDiff(o, db1, m1, a, pane, now);
    WriteSame(db1, PollDone, Touch(now), now);
  }

  lemma NoContextConfig(o: Oracle, db: Db, m: Monitor, a: AgentRecord, pane: string, now: int)
    requires db.detection == map[] && m.compiled == map[]
    ensures RecordContextPercent(o, db, m, a, pane, now).1 == m
  {
    hide Write, ContextPct;
    assert m.compiled - {a.engine} == m.compiled;
  }

  /** A shell sign that is the first of its kind is only counted. */
  lemma FirstSign(o: Oracle, db: Db, m: Monitor, a: AgentRecord, p: string, now: int)
    requires Ambiguous(o, p) && a.name == "a" && "a" !in m.healedAt && CountOf(m.counters, ShellCounter, "a") == 0
    ensures var c := CapturePaneOutput(db, m, a, Answered(p), now);
            var e := DetectCliExit(o, db, c.m, a, p, now);
            && c.db == db && c.outcome == Pane(p) && e.verdict == No && e.db == db
            && e.m == m.(counters := e.m.counters) && CountOf(e.m.counters, ShellCounter, "a") == 1
            && CountOf(e.m.counters, CaptureCounter, "a") == 0
  {
    Keys();
  }

  lemma FirstFullPoll(o: Oracle, w: World, id: nat, p: string)
    requires Watched(w, 0) && Ambiguous(o, p) && id in w.polls && w.polls[id] == FullCapture(w.db.rows["a"])
    ensures var w' := Step(o, w, ResumeCapture(id, Answered(p)));
            Watched(w', 1) && w'.polls == w.polls - {id} && w'.db.rows["a"].version > w.db.rows["a"].version
  {
    hide CapturePaneOutput, DetectCliExit, AfterLivePane, Ambiguous, CountOf;
    var a := w.db.rows["a"];
    FirstSign(o, w.db, w.m, a, p, w.now);
    var c := CapturePaneOutput(w.db, w.m, a, Answered(p), w.now);
    var e := DetectCliExit(o, w.db, c.m, a, p, w.now);
    LivePaneSame(o, e.db, e.m, a, p, w.now);
  }

  /** The second sign is the verdict: the pane is stored and the rest forgotten. */
  lemma SecondSign(o: Oracle, db: Db, m: Monitor, a: AgentRecord, p: string, now: int)
    requires Ambiguous(o, p) && a.name == "a" && "a" !in m.healedAt && CountOf(m.counters, ShellCounter, "a") == 1
    requires "a" in db.rows && db.rows["a"] == a
    ensures var c := CapturePaneOutput(db, m, a, Answered(p), now);
            var e := DetectCliExit(o, db, c.m, a, p, now);
            && c.db == db && c.outcome == Pane(p) && e.verdict == Yes
            && e.db == Write(db, CliExit, a, Failed, Failure(now, ExitReason(o, p)), now).db
            && e.m.compiled == m.compiled && StoredSnapshot(e.m, "a") == Some(p) && "a" !in e.m.screen.lastPaneSnapshot
            && CountOf(e.m.counters, CaptureCounter, "a") == 0 && CountOf(e.m.counters, HealCounter, "a") == 0
  {
    hide ExitReason;
    Keys();
  }

  lemma SecondFullPoll(o: Oracle, w: World, id: nat, p: string, a0: AgentRecord)
    requires Watched(w, 1) && Ambiguous(o, p) && id in w.polls && w.polls[id] == FullCapture(w.db.rows["a"])
    requires a0.version < w.db.rows["a"].version
    ensures var w' := Step(o, w, ResumeCapture(id, Answered(p)));
            Down(w', a0, 0, 0, p) && w'.polls == w.polls - {id} && Grew(w.db, w'.db, CliExit, "a")
  {
    hide CapturePaneOutput, DetectCliExit, AfterLivePane, Ambiguous, CountOf, Times;
    var a := w.db.rows["a"];
    SecondSign(o, w.db, w.m, a, p, w.now);
    var c := CapturePaneOutput(w.db, w.m, a, Answered(p), w.now);
    ExitTimes(o, w.db, c.m, a, p, w.now, CliExit, "a");
  }

  /** A late refusal: the third stores the empty text, and its write is rejected. */
  lemma LateRefusal(o: Oracle, w: World, id: nat, a0: AgentRecord, refusals: nat, p: string)
    requires Down(w, a0, refusals, 0, p) && refusals < 3 && id in w.polls && w.polls[id] == FastCapture(a0) && a0.name == "a"
    ensures var w' := Step(o, w, ResumeCapture(id, Refused("down")));
            Down(w', a0, refusals + 1, 0, if refusals == 2 then "" else p) && w'.polls == w.polls - {id}
  {
    hide CheckScreenDiff, HandleIdleTransitions;
    Keys();
  }

  lemma StartsFailed(o: Oracle, w: World, id: nat)
    requires Calm(w) && w.db.rows["a"].state == Failed && id !in w.polls
    ensures Step(o, w, StartFailed(id, "a")) == w.(polls := w.polls[id := FailedCapture(w.db.rows["a"])])
  {
  }

  /** A live pane unlike the stored text is counted, and the second time it heals. */
  lemma LiveSign(o: Oracle, db: Db, m: Monitor, a: AgentRecord, p: string, now: int, heal: nat)
    requires Ambiguous(o, p) && a.name == "a" && StoredSnapshot(m, "a") == Some("")
    requires CountOf(m.counters, HealCounter, "a") == heal && "a" in db.rows && db.rows["a"] == a
    ensures var e := DetectCliHealed(o, db, m, a, p, now);
            && (heal == 0 ==>
                  e.db == db && e.m == m.(counters := e.m.counters) && CountOf(e.m.counters, HealCounter, "a") == 1 &&
                  CountOf(e.m.counters, CaptureCounter, "a") == CountOf(m.counters, CaptureCounter, "a"))
            && (heal == 1 ==> e.db == Write(db, CliHealed, a, Active, ClearFailure, now).db)
  {
    Keys();
  }

  lemma FailedPoll(o: Oracle, w: World, id: nat, a0: AgentRecord, heal: nat, p: string)
    requires Down(w, a0, 3, heal, "") && heal < 2 && Ambiguous(o, p)
    requires id in w.polls && w.polls[id] == FailedCapture(w.db.rows["a"])
    ensures var w' := Step(o, w, ResumeCapture(id, Answered(p)));
            && w'.polls == w.polls - {id}
            && (heal == 0 ==> Down(w', a0, 3, 1, ""))
            && (heal == 1 ==> Grew(w.db, w'.db, CliHealed, "a"))
  {
    hide Times, DetectCliHealed, CountOf, Ambiguous;
    LiveSign(o, w.db, w.m, w.db.rows["a"], p, w.now, heal);
    WriteTimes(w.db, CliHealed, w.db.rows["a"], Active, ClearFailure, w.now, CliHealed, "a");
  }

  lemma ThreeInFlight(o: Oracle, p: string) returns (ws: seq<World>, es: seq<Event>, a0: AgentRecord)
    ensures FrozenRun(o, ws, es, p) && Watched(ws[|es|], 0) && a0 == ws[|es|].db.rows["a"] == BLANK.(state := Active, version := 1)
    ensures ws[|es|].db.births == 1
    ensures Late(ws[|es|], a0, 1) && ws[|es|].polls.Keys == {1, 2, 3}
  {
    hide Step, Frozen, CountOf;
    ws, es := Boots(o, p);
    a0 := ws[|es|].db.rows["a"];
    ws, es := Launched(o, ws, es, p, 1, false, 0);
    ws, es := Launched(o, ws, es, p, 2, false, 0);
    ws, es := Launched(o, ws, es, p, 3, false, 0);
  }

  /** Two full polls answered with the ambiguous pane: the verdict lands. */
  lemma TwoFullPolls(o: Oracle, ws: seq<World>, es: seq<Event>, p: string, a0: AgentRecord)
    returns (ws': seq<World>, es': seq<Event>)
    requires FrozenRun(o, ws, es, p) && Ambiguous(o, p) && Watched(ws[|es|], 0) && a0 == ws[|es|].db.rows["a"]
    requires Late(ws[|es|], a0, 1) && ws[|es|].polls.Keys == {1, 2, 3}
    ensures FrozenRun(o, ws', es', p) && |es'| > 0 && Grew(ws'[|es'| - 1].db, ws'[|es'|].db, CliExit, "a")
    ensures Down(ws'[|es'|], a0, 0, 0, p) && Late(ws'[|es'|], a0, 1) && ws'[|es'|].polls.Keys == {1, 2, 3}
  {
    hide Step, Down, Grew, Ambiguous, CountOf;
    ws', es' := Launched(o, ws, es, p, 4, true, 0);
    FirstFullPoll(o, ws'[|es'|], 4, p);
    ws', es' := Longer(o, ws', es', p, ResumeCapture(4, Answered(p)));
    ws', es' := Launched(o, ws', es', p, 5, true, 1);
    SecondFullPoll(o, ws'[|es'|], 5, p, a0);
    ws', es' := Longer(o, ws', es', p, ResumeCapture(5, Answered(p)));
  }

  /**
   * Every answered capture gives the same ambiguous pane, an exit verdict lands, and yet the agent
   * heals: three fast captures begun before the verdict are refused after it, and the third refusal
   * stores the empty text.
   */
  lemma LateRefusalsHealAFrozenPane(o: Oracle, p: string) returns (ws: seq<World>, es: seq<Event>, x: nat)
    requires Ambiguous(o, p)
    ensures FrozenRun(o, ws, es, p) && WorldGood(ws[0]) && x < |es| - 1
    ensures Grew(ws[x].db, ws[x + 1].db, CliExit, "a") && Grew(ws[|es| - 1].db, ws[|es|].db, CliHealed, "a")
  {
    hide Step, Down, Grew, Ambiguous, WorldGood, Watched, Late;
    EmptyIsGood();
    var ws0, es0, a0 := ThreeInFlight(o, p);
    ws0, es0 := TwoFullPolls(o, ws0, es0, p, a0);
    x := |es0| - 1;
    var ws1, es1 := ThreeRefusals(o, ws0, es0, p, a0);
    ws, es := TwoFailedPolls(o, ws1, es1, p, a0);
    assert ws[x] == ws1[x] == ws0[x] && ws[x + 1] == ws1[x + 1] == ws0[x + 1];
  }

  lemma ThreeRefusals(o: Oracle, ws: seq<World>, es: seq<Event>, p: string, a0: AgentRecord)
    returns (ws': seq<World>, es': seq<Event>)
    requires FrozenRun(o, ws, es, p) && Down(ws[|es|], a0, 0, 0, p) && Late(ws[|es|], a0, 1) && ws[|es|].polls.Keys == {1, 2, 3}
    ensures FrozenRun(o, ws', es', p) && ws <= ws' && es <= es' && Down(ws'[|es'|], a0, 3, 0, "") && ws'[|es'|].polls == map[]
  {
    hide Step, Down;
    LateRefusal(o, ws[|es|], 1, a0, 0, p);
    ws', es' := Longer(o, ws, es, p, ResumeCapture(1, Refused("down")));
    LateRefusal(o, ws'[|es'|], 2, a0, 1, p);
    ws', es' := Longer(o, ws', es', p, ResumeCapture(2, Refused("down")));
    LateRefusal(o, ws'[|es'|], 3, a0, 2, p);
    ws', es' := Longer(o, ws', es', p, ResumeCapture(3, Refused("down")));
  }

  lemma TwoFailedPolls(o: Oracle, ws: seq<World>, es: seq<Event>, p: string, a0: AgentRecord)
    returns (ws': seq<World>, es': seq<Event>)
    requires FrozenRun(o, ws, es, p) && Ambiguous(o, p) && Down(ws[|es|], a0, 3, 0, "") && ws[|es|].polls == map[]
    ensures FrozenRun(o, ws', es', p) && ws <= ws' && es <= es' && |es'| > |es|
    ensures Grew(ws'[|es'| - 1].db, ws'[|es'|].db, CliHealed, "a")
  {
    hide Step, Grew, Ambiguous, CountOf, StoredSnapshot;
    StartsFailed(o, ws[|es|], 6);
    ws', es' := Longer(o, ws, es, p, StartFailed(6, "a"));
    FailedPoll(o, ws'[|es'|], 6, a0, 0, p);
    ws', es' := Longer(o, ws', es', p, ResumeCapture(6, Answered(p)));
    StartsFailed(o, ws'[|es'|], 7);
    ws', es' := Longer(o, ws', es', p, StartFailed(7, "a"));
    FailedPoll(o, ws'[|es'|], 7, a0, 1, p);
    ws', es' := Longer(o, ws', es', p, ResumeCapture(7, Answered(p)));
  }

  // ── a write for a deleted agent ──

  lemma RefusalStep(o: Oracle, w: World, id: nat, a0: AgentRecord, refusals: nat)
    requires id in w.polls && w.polls[id] == FastCapture(a0) && a0.name == "a"
    requires CountOf(w.m.counters, CaptureCounter, "a") == refusals < 3
    ensures var w' := Step(o, w, ResumeCapture(id, Refused("down")));
            && w'.polls == w.polls - {id}
            && (refusals < 2 ==> CountOf(w'.m.counters, CaptureCounter, "a") == refusals + 1 && w'.db == w.db)
            && (refusals == 2 ==> w'.db == Write(w.db, CaptureFailed, a0, Failed, Failure(w.now, "down"), w.now).db)
  {
    hide CheckScreenDiff, HandleIdleTransitions, ApplyExtra;
    Keys();
  }

  /** Deleted, forgotten by the monitor, created again under its old name, and about to spawn. */
  lemma Recreated(o: Oracle, ws: seq<World>, es: seq<Event>, p: string) returns (ws': seq<World>, es': seq<Event>)
    requires FrozenRun(o, ws, es, p) && ws[|es|].db.births == 1
    ensures FrozenRun(o, ws', es', p) && ws'[|es'|].polls == ws[|es|].polls && "a" in ws'[|es'|].db.rows
    ensures var row := ws'[|es'|].db.rows["a"]; row.name == "a" && row.version == 1 && row.birth == 1 && row.state == Spawning
    ensures CountOf(ws'[|es'|].m.counters, CaptureCounter, "a") == 0
  {
    hide FrozenRun;
    ws', es' := Longer(o, ws, es, p, Delete("a"));
    ws', es' := Longer(o, ws', es', p, Cleanup("a"));
    ws', es' := Longer(o, ws', es', p, Create(BLANK));
    ws', es' := Longer(o, ws', es', p, Lifecycle(BLANK, Spawning, Nothing));
  }

  /** A version check protects one incarnation only: captures begun for a deleted agent are refused
      later and mark a new agent of that name, still spawning, as failed. */
  lemma RecreationDefeatsTheVersionCheck(o: Oracle) returns (ws: seq<World>, es: seq<Event>)
    ensures IsRun(o, ws, es) && ws[0] == EMPTY && WorldGood(ws[0]) && |ws[|es|].db.log| > 0
    ensures var e := ws[|es|].db.log[|ws[|es|].db.log| - 1];
            e.actor == CaptureFailed && e.read.state == Active && e.before == Spawning && e.read.birth != e.birth
  {
    hide Step, Watched, CountOf, WorldGood, Write;
    EmptyIsGood();
    var a0;
    ws, es, a0 := ThreeInFlight(o, "");
    ws, es := Recreated(o, ws, es, "");
    RefusalStep(o, ws[|es|], 1, a0, 0);
    ws, es := Longer(o, ws, es, "", ResumeCapture(1, Refused("down")));
    RefusalStep(o, ws[|es|], 2, a0, 1);
    ws, es := Longer(o, ws, es, "", ResumeCapture(2, Refused("down")));
    RefusalStep(o, ws[|es|], 3, a0, 2);
    LateWriteLands(ws[|es|].db, a0, ws[|es|].now);
    ws, es := Longer(o, ws, es, "", ResumeCapture(3, Refused("down")));
  }

  lemma LateWriteLands(db: Db, a0: AgentRecord, now: int)
    requires a0.name in db.rows && db.rows[a0.name].version == a0.version
    ensures Write(db, CaptureFailed, a0, Failed, Failure(now, "down"), now).db.log ==
            db.log + [Landed(CaptureFailed, a0, db.rows[a0.name].birth, db.rows[a0.name].state, Failed, now)]
  {
  }
}
