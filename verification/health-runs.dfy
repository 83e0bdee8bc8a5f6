/**
 * The monitor among the other writers of the agents table: every interleaving of fast, full and
 * failed-agent polls, each cut at its awaits, with deliveries, proxy sweeps, outside writes, deletions
 * and recreations, and what a version-checked write means in it.
 */
module HealthRuns {
  import opened Options
  import opened AgentsTable
  import opened HealthSpec

  /** The database, the monitor, the polls suspended at an await, and the clock. */
  datatype World = World(db: Db, m: Monitor, polls: map<nat, Poll>, now: int)

  /** One uninterrupted stretch of the event loop, by the monitor or by someone else.
      A sweep of a proxy is a `ProxySweep` event for each agent on it. */
  datatype Event =
    | Tick(ms: nat)
    | StartFast(id: nat, name: string)
    | StartFull(id: nat, name: string)
    | StartFailed(id: nat, name: string)
    | ResumeActivity(id: nat, act: Activity)
    | ResumeCapture(id: nat, resp: Response)
    | ResumeFinish(id: nat)
    | DeliveryDone(name: string)
    | SweepProxy(name: string, proxy: string)
    | ProxyUnavailable(name: string, reason: string)
    | Lifecycle(read: AgentRecord, to: AgentState, extra: Extra)
    | Reconfigure(name: string, engine: string, proxyId: Option<string>, reloadQueued: bool)
    | Configure(engine: string, json: string)
    | Create(row: AgentRecord)
    | Delete(name: string)
    | Cleanup(name: string)

  function Ended(w: World, id: nat): World {
    w.(polls := Without(w.polls, id))
  }

  function Suspend(w: World, id: nat, s: Stretch): World {
    var w1 := w.(db := s.db, m := s.m);
    match s.next
    case None => w1.(polls := Without(w.polls, id))
    case Some(p) => w1.(polls := w.polls[id := p])
  }

  function Step(o: Oracle, w: World, e: Event): World {
    match e
    case Tick(ms) => w.(now := w.now + ms)
    case StartFast(id, name) =>
      if id !in w.polls && name in w.db.rows && w.db.rows[name].state == Active && w.db.rows[name].proxyId.Some?
      then w.(polls := w.polls[id := FastActivity(w.db.rows[name])]) else w
    case StartFull(id, name) =>
      if id !in w.polls then Suspend(w, id, BeginFull(o, w.db, w.m, name)) else w
    case StartFailed(id, name) =>
      if id !in w.polls then Suspend(w, id, BeginFailed(w.db, w.m, name)) else w
    case ResumeActivity(id, act) =>
      if id !in w.polls then w
      else
        (match w.polls[id]
         case FastActivity(a) => Suspend(w, id, AfterFastActivity(o, w.db, w.m, a, act, w.now))
         case FullActivity(a, p) => Suspend(w, id, AfterFullActivity(w.db, w.m, a, p, act, w.now))
         case _ => w)
    case ResumeCapture(id, resp) =>
      if id !in w.polls then w
      else
        (match w.polls[id]
         case FastCapture(a) => Suspend(w, id, AfterFastCapture(o, w.db, w.m, a, resp, w.now))
         case FullCapture(a) => Suspend(w, id, AfterFullCapture(o, w.db, w.m, a, resp, w.now))
         case FailedCapture(a) => Suspend(w, id, AfterFailedCapture(o, w.db, w.m, a, resp, w.now))
         case _ => w)
    case ResumeFinish(id) =>
      if id in w.polls && w.polls[id].FullFinish?
      then Ended(w.(db := TouchLatest(w.db, w.polls[id].name, w.now)), id) else w
    case DeliveryDone(name) =>
      if name in w.db.rows && w.db.rows[name].state == Idle
      then w.(db := Write(w.db, Delivery, w.db.rows[name], Active, Touch(w.now), w.now).db) else w
    case SweepProxy(name, proxy) =>
      if name in w.db.rows && w.db.rows[name].proxyId == Some(proxy) && IsRunning(w.db.rows[name])
      then w.(db := Write(w.db, ProxySweep, w.db.rows[name], Failed, Failure(w.now, "Proxy disconnected"), w.now).db)
      else w
    case ProxyUnavailable(name, reason) =>
      if name in w.db.rows && w.db.rows[name].state != Failed
      then w.(db := Write(w.db, Background, w.db.rows[name], Failed, Failure(w.now, reason), w.now).db)
      else w
    case Lifecycle(read, to, extra) =>
      w.(db := Write(w.db, Outside, read, to, extra, w.now).db)
    case Reconfigure(name, engine, proxyId, reloadQueued) =>
      if name in w.db.rows then
        var row := w.db.rows[name].(engine := engine, proxyId := proxyId, reloadQueued := reloadQueued);
        w.(db := w.db.(rows := w.db.rows[name := row]))
      else w
    case Configure(engine, json) =>
      w.(db := w.db.(detection := w.db.detection[engine := json]))
    case Create(row) =>
      if row.name in w.db.rows then w
      else w.(db := w.db.(rows := w.db.rows[row.name := row.(version := 0, birth := w.db.births)],
                          births := w.db.births + 1))
    case Delete(name) => w.(db := w.db.(rows := Without(w.db.rows, name)))
    case Cleanup(name) => w.(m := CleanupAgent(w.m, name))
  }

  ghost predicate IsRun(o: Oracle, ws: seq<World>, es: seq<Event>) {
    && |ws| == |es| + 1
    && forall i :: 0 <= i < |es| ==> ws[i + 1] == Step(o, ws[i], es[i])
  }

  // ── Which writes land ──

  predicate Allowed(actor: Actor, before: AgentState, after: AgentState) {
    match actor
    case IdleDetected => before == Active && after == Idle
    case ActivityDetected => before == Idle && after == Active
    case CaptureFailed => (before == Active || before == Idle) && after == Failed
    case CliExit => (before == Active || before == Idle) && after == Failed
    case CliHealed => before == Failed && after == Active
    case ContextRead => before == after && (before == Active || before == Idle)
    case PollDone => before == after
    case _ => true
  }

  /** A landed monitor write, unless the row was deleted and created again in between, started
      from the state it had read and took an allowed edge. */
  ghost predicate Disciplined(e: Landed) {
    ByMonitor(e.actor) && e.read.birth == e.birth ==>
      e.read.state == e.before && Allowed(e.actor, e.before, e.after)
  }

  ghost predicate DbGood(db: Db) {
    Consistent(db) && forall i :: 0 <= i < |db.log| ==> Disciplined(db.log[i])
  }

  ghost predicate Remembers(db: Db, later: Db) {
    && db.log <= later.log
    && forall r :: Known(db, r) ==> Known(later, r)
  }

  ghost predicate PollGood(db: Db, p: Poll) {
    match p
    case FastActivity(a) => Known(db, a) && a.state == Active
    case FastCapture(a) => Known(db, a) && a.state == Active
    case FullActivity(a, _) => Known(db, a) && CanSuspend(a)
    case FullCapture(a) => Known(db, a) && CanSuspend(a)
    case FullFinish(_) => true
    case FailedCapture(a) => Known(db, a) && a.state == Failed
  }

  ghost predicate WorldGood(w: World) {
    DbGood(w.db) && forall id :: id in w.polls ==> PollGood(w.db, w.polls[id])
  }

  lemma WriteIsGood(db: Db, actor: Actor, read: AgentRecord, to: AgentState, extra: Extra, now: int)
    requires DbGood(db)
    requires ByMonitor(actor) ==> Known(db, read) && Allowed(actor, read.state, to)
    ensures DbGood(Write(db, actor, read, to, extra, now).db)
    ensures Remembers(db, Write(db, actor, read, to, extra, now).db)
  {
    WriteKeeps(db, actor, read, to, extra, now);
    var a := Write(db, actor, read, to, extra, now);
    forall i | 0 <= i < |a.db.log| ensures Disciplined(a.db.log[i]) {
      if i < |db.log| { assert a.db.log[i] == db.log[i]; }
    }
  }

  lemma IdleTransitionIsGood(db: Db, m: Monitor, agent: AgentRecord, isIdle: bool, now: int)
    requires DbGood(db)
    ensures DbGood(HandleIdleTransitions(db, m, agent, isIdle, now))
    ensures Remembers(db, HandleIdleTransitions(db, m, agent, isIdle, now))
  {
    if agent.name in db.rows {
      var current := db.rows[agent.name];
      if current.state == Active {
        WriteIsGood(db, IdleDetected, current, Idle, Touch(now), now);
      } else if current.state == Idle {
        WriteIsGood(db, ActivityDetected, current, Active, Touch(now), now);
      }
    }
  }

  lemma CaptureIsGood(db: Db, m: Monitor, agent: AgentRecord, resp: Response, now: int)
    requires DbGood(db) && Known(db, agent) && CanSuspend(agent)
    ensures var c := CapturePaneOutput(db, m, agent, resp, now);
            DbGood(c.db) && Remembers(db, c.db)
  {
    if resp.Refused? { WriteIsGood(db, CaptureFailed, agent, Failed, Failure(now, resp.error), now); }
  }

  lemma TouchIsGood(db: Db, name: string, now: int)
    requires DbGood(db)
    ensures DbGood(TouchLatest(db, name, now)) && Remembers(db, TouchLatest(db, name, now))
  {
    if name in db.rows {
      WriteIsGood(db, PollDone, db.rows[name], db.rows[name].state, Touch(now), now);
    }
  }

  lemma FastCaptureIsGood(o: Oracle, db: Db, m: Monitor, agent: AgentRecord, resp: Response, now: int)
    requires DbGood(db) && Known(db, agent) && CanSuspend(agent)
    ensures var s := AfterFastCapture(o, db, m, agent, resp, now);
            DbGood(s.db) && Remembers(db, s.db) && s.next.None?
  {
    CaptureIsGood(db, m, agent, resp, now);
    var c := CapturePaneOutput(db, m, agent, resp, now);
    if c.outcome.Pane? {
      var (m1, isIdle) := CheckScreenDiff(o, c.db, c.m, agent, c.outcome.text, now);
      IdleTransitionIsGood(c.db, m1, agent, isIdle, now);
    }
  }

  lemma CliExitIsGood(o: Oracle, db: Db, m: Monitor, agent: AgentRecord, pane: string, now: int)
    requires DbGood(db) && Known(db, agent) && CanSuspend(agent)
    ensures var e := DetectCliExit(o, db, m, agent, pane, now);
            DbGood(e.db) && Remembers(db, e.db)
  {
    WriteIsGood(db, CliExit, agent, Failed, Failure(now, ExitReason(o, pane)), now);
  }

  lemma ContextIsGood(o: Oracle, db: Db, m: Monitor, agent: AgentRecord, pane: string, now: int)
    requires DbGood(db)
    ensures var r := RecordContextPercent(o, db, m, agent, pane, now);
            DbGood(r.0) && Remembers(db, r.0)
  {
    var pct := ContextPct(o, GetDetection(o, db, m, agent.engine).1, agent.engine, pane);
    if pct.Some? && agent.name in db.rows && CanSuspend(db.rows[agent.name]) {
      var latest := db.rows[agent.name];
      WriteIsGood(db, ContextRead, latest, latest.state, Context(pct.value, now), now);
    }
  }

  lemma RemembersTransitively(db0: Db, db1: Db, db2: Db)
    requires Remembers(db0, db1) && Remembers(db1, db2)
    ensures Remembers(db0, db2)
  {
  }

  /** The part of a full poll that runs once the pane is known to show a live CLI. */
  lemma LivePaneIsGood(o: Oracle, db: Db, m: Monitor, agent: AgentRecord, pane: string, now: int)
    requires DbGood(db)
    ensures var s := AfterLivePane(o, db, m, agent, pane, now);
            DbGood(s.db) && Remembers(db, s.db) && (s.next.None? || s.next.value.FullFinish?)
  {
    ContextIsGood(o, db, m, agent, pane, now);
    var (db2, m2) := RecordContextPercent(o, db, m, agent, pane, now);
    var (m3, isIdle) := CheckScreenDiff(o, db2, m2, agent, pane, now);
    IdleTransitionIsGood(db2, m3, agent, isIdle, now);
    var db3 := HandleIdleTransitions(db2, m3, agent, isIdle, now);
    RemembersTransitively(db, db2, db3);
    TouchIsGood(db3, agent.name, now);
    RemembersTransitively(db, db3, TouchLatest(db3, agent.name, now));
  }

  lemma FullCaptureIsGood(o: Oracle, db: Db, m: Monitor, agent: AgentRecord, resp: Response, now: int)
    requires DbGood(db) && Known(db, agent) && CanSuspend(agent)
    ensures var s := AfterFullCapture(o, db, m, agent, resp, now);
            DbGood(s.db) && Remembers(db, s.db) && (s.next.None? || s.next.value.FullFinish?)
  {
    CaptureIsGood(db, m, agent, resp, now);
    var c := CapturePaneOutput(db, m, agent, resp, now);
    if c.outcome.Pane? {
      CliExitIsGood(o, c.db, c.m, agent, c.outcome.text, now);
      var e := DetectCliExit(o, c.db, c.m, agent, c.outcome.text, now);
      RemembersTransitively(db, c.db, e.db);
      LivePaneIsGood(o, e.db, e.m, agent, c.outcome.text, now);
      RemembersTransitively(db, e.db, AfterLivePane(o, e.db, e.m, agent, c.outcome.text, now).db);
    }
  }

  lemma CreateIsGood(db: Db, row: AgentRecord)
    requires DbGood(db) && row.name !in db.rows
    ensures var db' := db.(rows := db.rows[row.name := row.(version := 0, birth := db.births)], births := db.births + 1);
            DbGood(db') && Remembers(db, db')
  {
    NoWritesBeforeBirth(db.log, row.name, db.births);
  }

  lemma {:induction false} NoWritesBeforeBirth(log: seq<Landed>, name: string, birth: nat)
    requires forall i :: 0 <= i < |log| ==> log[i].birth < birth
    ensures Writes(log, name, birth) == 0
  {
    if |log| > 0 { NoWritesBeforeBirth(log[..|log| - 1], name, birth); }
  }

  lemma ResumeActivityIsGood(o: Oracle, w: World, id: nat, act: Activity)
    requires WorldGood(w) && id in w.polls
    ensures var db' := Step(o, w, ResumeActivity(id, act)).db;
            DbGood(db') && Remembers(w.db, db')
  {
    hide AfterFastCapture, AfterFullCapture, AfterFailedCapture, BeginFull, TouchLatest, CleanupAgent, Write, HandleIdleTransitions, GetDetection, NoteActivity;
    match w.polls[id]
    case FastActivity(a) =>
      var (m1, d) := GetDetection(o, w.db, w.m, a.engine);
      IdleTransitionIsGood(w.db, NoteActivity(m1, a.name, act, d.Some?).0, a, true, w.now);
    case FullActivity(a, p) =>
      IdleTransitionIsGood(w.db, NoteActivity(w.m, a.name, act, p).0, a, true, w.now);
    case _ =>
  }

  lemma ResumeCaptureIsGood(o: Oracle, w: World, id: nat, resp: Response)
    requires WorldGood(w) && id in w.polls
    ensures var db' := Step(o, w, ResumeCapture(id, resp)).db;
            DbGood(db') && Remembers(w.db, db')
  {
    hide AfterFastCapture, AfterFullCapture, AfterFastActivity, AfterFullActivity, BeginFull, TouchLatest, CleanupAgent, Write;
    assert PollGood(w.db, w.polls[id]);
    match w.polls[id]
    case FastCapture(a) => FastCaptureIsGood(o, w.db, w.m, a, resp, w.now);
    case FullCapture(a) => FullCaptureIsGood(o, w.db, w.m, a, resp, w.now);
    case FailedCapture(a) => WriteIsGood(w.db, CliHealed, a, Active, ClearFailure, w.now);
    case _ =>
  }

  predicate IsResume(e: Event) {
    e.ResumeActivity? || e.ResumeCapture? || e.ResumeFinish?
  }

  lemma BeginLeavesTable(o: Oracle, db: Db, m: Monitor, name: string)
    ensures BeginFull(o, db, m, name).db == db && BeginFailed(db, m, name).db == db
  {
    hide GetDetection;
  }

  lemma RemembersItself(db: Db)
    ensures Remembers(db, db)
  {
  }

  lemma WriterStepIsGood(o: Oracle, w: World, e: Event)
    requires WorldGood(w) && (e.DeliveryDone? || e.SweepProxy? || e.ProxyUnavailable? || e.Lifecycle?)
    ensures DbGood(Step(o, w, e).db) && Remembers(w.db, Step(o, w, e).db)
  {
    hide Write, DbGood, Remembers, PollGood;
    RemembersItself(w.db);
    match e
    case DeliveryDone(name) =>
      if name in w.db.rows { WriteIsGood(w.db, Delivery, w.db.rows[name], Active, Touch(w.now), w.now); }
    case SweepProxy(name, proxy) =>
      if name in w.db.rows {
        WriteIsGood(w.db, ProxySweep, w.db.rows[name], Failed, Failure(w.now, "Proxy disconnected"), w.now);
      }
    case ProxyUnavailable(name, reason) =>
      if name in w.db.rows {
        WriteIsGood(w.db, Background, w.db.rows[name], Failed, Failure(w.now, reason), w.now);
      }
    case Lifecycle(read, to, extra) => WriteIsGood(w.db, Outside, read, to, extra, w.now);
  }

  lemma TableStepIsGood(o: Oracle, w: World, e: Event)
    requires WorldGood(w) && (e.Reconfigure? || e.Configure? || e.Create? || e.Delete?)
    ensures DbGood(Step(o, w, e).db) && Remembers(w.db, Step(o, w, e).db)
  {
    hide Writes, Disciplined, PollGood;
    if e.Create? && e.row.name !in w.db.rows { CreateIsGood(w.db, e.row); }
  }

  lemma OutsideStepIsGood(o: Oracle, w: World, e: Event)
    requires WorldGood(w) && !IsResume(e)
    ensures DbGood(Step(o, w, e).db) && Remembers(w.db, Step(o, w, e).db)
  {
    hide DbGood, Remembers, PollGood, BeginFull, BeginFailed, Write, CleanupAgent;
    RemembersItself(w.db);
    if e.DeliveryDone? || e.SweepProxy? || e.ProxyUnavailable? || e.Lifecycle? {
      WriterStepIsGood(o, w, e);
    } else if e.Reconfigure? || e.Configure? || e.Create? || e.Delete? {
      TableStepIsGood(o, w, e);
    } else {
      if e.StartFull? || e.StartFailed? { BeginLeavesTable(o, w.db, w.m, e.name); }
    }
  }

  /** What a step does to the database, leaving the suspended polls aside. */
  lemma StepDbIsGood(o: Oracle, w: World, e: Event)
    requires WorldGood(w)
    ensures DbGood(Step(o, w, e).db) && Remembers(w.db, Step(o, w, e).db)
  {
    hide AfterFastActivity, AfterFastCapture, AfterFullActivity, AfterFullCapture, AfterFailedCapture, BeginFull, Write;
    match e
    case ResumeActivity(id, act) => if id in w.polls { ResumeActivityIsGood(o, w, id, act); }
    case ResumeCapture(id, resp) => if id in w.polls { ResumeCaptureIsGood(o, w, id, resp); }
    case ResumeFinish(id) =>
      if id in w.polls && w.polls[id].FullFinish? { TouchIsGood(w.db, w.polls[id].name, w.now); }
    case _ => OutsideStepIsGood(o, w, e);
  }

  /** A poll that a step suspends holds a record that is known in the new table. */
  lemma SuspendedPollIsGood(o: Oracle, w: World, e: Event, id: nat)
    requires WorldGood(w) && Remembers(w.db, Step(o, w, e).db)
    requires id in Step(o, w, e).polls && !(id in w.polls && Step(o, w, e).polls[id] == w.polls[id])
    ensures PollGood(Step(o, w, e).db, Step(o, w, e).polls[id])
  {
    hide GetDetection, NoteActivity, HandleIdleTransitions, CapturePaneOutput, CheckScreenDiff, DetectCliExit, AfterLivePane, DetectCliHealed, TouchLatest, Write, CleanupAgent, Disciplined, Writes;
    match e {
      case StartFast(_, name) => assert Known(w.db, w.db.rows[name]);
      case StartFull(_, name) => assert Known(w.db, w.db.rows[name]);
      case StartFailed(_, name) => assert Known(w.db, w.db.rows[name]);
      case ResumeCapture(rid, resp) =>
        match w.polls[rid] {
          case FastCapture(a) => FastCaptureIsGood(o, w.db, w.m, a, resp, w.now);
          case FullCapture(a) => FullCaptureIsGood(o, w.db, w.m, a, resp, w.now);
          case _ =>
        }
      case _ =>
    }
  }

  lemma StepKeepsWorld(o: Oracle, w: World, e: Event)
    requires WorldGood(w)
    ensures WorldGood(Step(o, w, e)) && Remembers(w.db, Step(o, w, e).db)
  {
    StepDbIsGood(o, w, e);
    var w' := Step(o, w, e);
    forall id | id in w'.polls ensures PollGood(w'.db, w'.polls[id]) {
      if id in w.polls && w'.polls[id] == w.polls[id] {
        assert PollGood(w.db, w.polls[id]);
      } else {
        SuspendedPollIsGood(o, w, e, id);
      }
    }
  }

  lemma {:induction false} RunKeepsWorld(o: Oracle, ws: seq<World>, es: seq<Event>, i: nat, j: nat)
    requires IsRun(o, ws, es) && WorldGood(ws[0]) && i <= j < |ws|
    ensures WorldGood(ws[i]) && WorldGood(ws[j]) && Remembers(ws[i].db, ws[j].db)
    decreases j
  {
    if j > 0 {
      RunKeepsWorld(o, ws, es, if i < j then i else j - 1, j - 1);
      StepKeepsWorld(o, ws[j - 1], es[j - 1]);
    }
  }

  /** In every interleaving, every monitor write that ever lands is disciplined. */
  lemma MonitorWritesAreDisciplined(o: Oracle, ws: seq<World>, es: seq<Event>, i: nat, k: nat)
    requires IsRun(o, ws, es) && WorldGood(ws[0]) && i < |ws| && k < |ws[i].db.log|
    requires ByMonitor(ws[i].db.log[k].actor) && ws[i].db.log[k].read.birth == ws[i].db.log[k].birth
    ensures var e := ws[i].db.log[k];
            e.read.state == e.before && Allowed(e.actor, e.before, e.after)
  {
    RunKeepsWorld(o, ws, es, i, i);
    assert Disciplined(ws[i].db.log[k]);
  }

  /** Optimistic concurrency: if a record read in world i still passes the version check in a later
      world j of the same incarnation, then no write of that agent landed in between, and the state
      is the one that was read. */
  lemma PassingTheCheckMeansNoWriteBetween(
    o: Oracle, ws: seq<World>, es: seq<Event>, i: nat, j: nat, name: string, k: nat)
    requires IsRun(o, ws, es) && WorldGood(ws[0]) && i <= j < |ws|
    requires name in ws[i].db.rows && name in ws[j].db.rows
    requires ws[i].db.rows[name].birth == ws[j].db.rows[name].birth
    requires ws[i].db.rows[name].version == ws[j].db.rows[name].version
    requires |ws[i].db.log| <= k < |ws[j].db.log|
    ensures !(ws[j].db.log[k].read.name == name && ws[j].db.log[k].birth == ws[j].db.rows[name].birth)
    ensures ws[i].db.rows[name].state == ws[j].db.rows[name].state
  {
    RunKeepsWorld(o, ws, es, i, j);
    var early, late := ws[i].db, ws[j].db;
    assert late.log[..|early.log|] == early.log;
    EqualCountsMeanNoWrite(late.log, |early.log|, name, late.rows[name].birth);
    assert Known(early, early.rows[name]);
    assert Known(late, early.rows[name]);
  }

  // ── polls with a stale record ──

  /** Every write between `db` and `db'` re-reads the row of that name: it presents the version that the
      row has at that moment, and is none of the three that present the record a poll holds. */
  ghost predicate OnlyReReads(db: Db, db': Db, name: string) {
    && db.log <= db'.log && db' == db.(rows := db'.rows, log := db'.log)
    && (forall n :: n != name ==> (n in db'.rows <==> n in db.rows) && (n in db.rows ==> db'.rows[n] == db.rows[n]))
    && (name in db'.rows <==> name in db.rows)
    && (name in db.rows ==>
          db'.rows[name].name == name && db'.rows[name].birth == db.rows[name].birth &&
          db'.rows[name].version == db.rows[name].version + |db'.log| - |db.log|)
    && (|db'.log| == |db.log| ==> db' == db)
    && forall k :: |db.log| <= k < |db'.log| ==> IsReRead(db, name, db'.log[k], k - |db.log|)
  }

  /** The i-th write since `db`. */
  predicate IsReRead(db: Db, name: string, e: Landed, i: int) {
    name in db.rows && ReRead(e, name, db.rows[name].birth, db.rows[name].version + i)
  }

  predicate ReRead(e: Landed, name: string, birth: nat, version: int) {
    && (e.actor.IdleDetected? || e.actor.ActivityDetected? || e.actor.ContextRead? || e.actor.PollDone?)
    && e.read.name == name && e.read.birth == e.birth == birth && e.read.version == version && e.read.state == e.before
  }

  lemma NothingWritten(db: Db, name: string)
    requires name in db.rows ==> db.rows[name].name == name
    ensures OnlyReReads(db, db, name)
  {
  }

  lemma FreshWrite(db: Db, actor: Actor, name: string, to: AgentState, extra: Extra, now: int)
    requires name in db.rows && db.rows[name].name == name
    requires actor.IdleDetected? || actor.ActivityDetected? || actor.ContextRead? || actor.PollDone?
    ensures OnlyReReads(db, Write(db, actor, db.rows[name], to, extra, now).db, name)
  {
  }

  lemma ReReadsJoin(db0: Db, db1: Db, db2: Db, name: string)
    requires OnlyReReads(db0, db1, name) && OnlyReReads(db1, db2, name)
    ensures OnlyReReads(db0, db2, name)
  {
    forall k | |db0.log| <= k < |db2.log| ensures IsReRead(db0, name, db2.log[k], k - |db0.log|) {
      if k < |db1.log| {
        assert db2.log[k] == db1.log[k];
      } else {
        assert IsReRead(db1, name, db2.log[k], k - |db1.log|);
      }
    }
  }

  lemma IdleReReads(db: Db, m: Monitor, a: AgentRecord, isIdle: bool, now: int)
    requires a.name in db.rows ==> db.rows[a.name].name == a.name
    ensures OnlyReReads(db, HandleIdleTransitions(db, m, a, isIdle, now), a.name)
  {
    hide Write, OnlyReReads;
    NothingWritten(db, a.name);
    if a.name in db.rows {
      FreshWrite(db, IdleDetected, a.name, Idle, Touch(now), now);
      FreshWrite(db, ActivityDetected, a.name, Active, Touch(now), now);
    }
  }

  lemma ContextReReads(o: Oracle, db: Db, m: Monitor, a: AgentRecord, pane: string, now: int)
    requires a.name in db.rows ==> db.rows[a.name].name == a.name
    ensures OnlyReReads(db, RecordContextPercent(o, db, m, a, pane, now).0, a.name)
  {
    hide Write, OnlyReReads;
    NothingWritten(db, a.name);
    var pct := ContextPct(o, GetDetection(o, db, m, a.engine).1, a.engine, pane);
    if a.name in db.rows && pct.Some? {
      FreshWrite(db, ContextRead, a.name, db.rows[a.name].state, Context(pct.value, now), now);
    }
  }

  lemma TouchReReads(db: Db, name: string, now: int)
    requires name in db.rows ==> db.rows[name].name == name
    ensures OnlyReReads(db, TouchLatest(db, name, now), name)
  {
    hide Write, OnlyReReads;
    NothingWritten(db, name);
    if name in db.rows {
      FreshWrite(db, PollDone, name, db.rows[name].state, Touch(now), now);
    }
  }

  lemma StillNamed(db: Db, db': Db, name: string)
    requires OnlyReReads(db, db', name)
    ensures name in db'.rows ==> db'.rows[name].name == name
  {
  }

  lemma LivePaneReReads(o: Oracle, db: Db, m: Monitor, a: AgentRecord, pane: string, now: int)
    requires a.name in db.rows ==> db.rows[a.name].name == a.name
    ensures OnlyReReads(db, AfterLivePane(o, db, m, a, pane, now).db, a.name)
  {
    hide OnlyReReads, RecordContextPercent, CheckScreenDiff, HandleIdleTransitions, TouchLatest;
    ContextReReads(o, db, m, a, pane, now);
    var (db1, m1) := RecordContextPercent(o, db, m, a, pane, now);
    StillNamed(db, db1, a.name);
    var (m2, isIdle) := CheckScreenDiff(o, db1, m1, a, pane, now);
    IdleReReads(db1, m2, a, isIdle, now);
    var db2 := HandleIdleTransitions(db1, m2, a, isIdle, now);
    ReReadsJoin(db, db1, db2, a.name);
    StillNamed(db, db2, a.name);
    TouchReReads(db2, a.name, now);
    ReReadsJoin(db, db2, TouchLatest(db2, a.name, now), a.name);
  }

  ghost predicate IsStale(db: Db, a: AgentRecord) {
    a.name !in db.rows || db.rows[a.name].version != a.version
  }

  lemma StaleCapture(db: Db, m: Monitor, a: AgentRecord, resp: Response, now: int)
    requires IsStale(db, a)
    ensures CapturePaneOutput(db, m, a, resp, now).db == db
  {
    hide Noted, Counted, Dropped;
  }

  lemma StaleExit(o: Oracle, db: Db, m: Monitor, a: AgentRecord, pane: string, now: int)
    requires IsStale(db, a)
    ensures DetectCliExit(o, db, m, a, pane, now).db == db && DetectCliHealed(o, db, m, a, pane, now).db == db
  {
    hide Noted, Counted, Dropped, Evidence, RejectHeal;
  }

  /**
   * A poll that resumes, with whatever answer, after its record has gone stale: the writes that present
   * that record (a capture failure, an exit verdict, a heal) are rejected, and every write that does
   * land re-reads the row. With a refusal, or as a failed agent's poll, it changes no row at all.
   */
  lemma StalePollOnlyReReads(o: Oracle, w: World, e: Event)
    requires WorldGood(w) && (e.ResumeCapture? || e.ResumeActivity?) && e.id in w.polls && !w.polls[e.id].FullFinish?
    requires IsStale(w.db, w.polls[e.id].agent)
    ensures OnlyReReads(w.db, Step(o, w, e).db, w.polls[e.id].agent.name)
    ensures e.ResumeCapture? && (e.resp.Refused? || w.polls[e.id].FailedCapture?) ==> Step(o, w, e).db == w.db
  {
    hide OnlyReReads, IsStale, CapturePaneOutput, DetectCliExit, DetectCliHealed, AfterLivePane, CheckScreenDiff, HandleIdleTransitions;
    hide GetDetection, NoteActivity;
    var a := w.polls[e.id].agent;
    NothingWritten(w.db, a.name);
    match e
    case ResumeActivity(id, act) =>
      match w.polls[id] {
        case FastActivity(_) =>
          var (m1, d) := GetDetection(o, w.db, w.m, a.engine);
          IdleReReads(w.db, NoteActivity(m1, a.name, act, d.Some?).0, a, true, w.now);
        case FullActivity(_, p) => IdleReReads(w.db, NoteActivity(w.m, a.name, act, p).0, a, true, w.now);
        case _ =>
      }
    case ResumeCapture(id, resp) =>
      StaleCapture(w.db, w.m, a, resp, w.now);
      var c := CapturePaneOutput(w.db, w.m, a, resp, w.now);
      RefusedIsNoPane(w.db, w.m, a, resp, w.now);
      if resp.Answered? {
        StaleExit(o, c.db, c.m, a, resp.data, w.now);
        StaleExit(o, w.db, w.m, a, resp.data, w.now);
        var (m1, isIdle) := CheckScreenDiff(o, c.db, c.m, a, resp.data, w.now);
        IdleReReads(c.db, m1, a, isIdle, w.now);
        LivePaneReReads(o, c.db, DetectCliExit(o, c.db, c.m, a, resp.data, w.now).m, a, resp.data, w.now);
      }
  }

  lemma RefusedIsNoPane(db: Db, m: Monitor, a: AgentRecord, resp: Response, now: int)
    ensures var c := CapturePaneOutput(db, m, a, resp, now);
            (c.outcome.Pane? <==> resp.Answered?) && (resp.Answered? ==> c.outcome.text == resp.data)
  {
    hide Write, Noted;
  }
}
