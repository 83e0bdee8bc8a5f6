/**
 * What whole runs of the monitor keep. The unchanged counter is the length of the quiet suffix of the
 * captures; an agent goes idle only after its grace period; a failure by exit and a heal each need two
 * readings in a row; and exit failures of one life of an agent lie apart by at least the grace period after a heal.
 */
module HealthProperties {
  import opened Options
  import opened AgentsTable
  import opened HealthSpec
  import opened HealthRuns

  // ── The unchanged counter is the length of the quiet suffix ──

  /** An idle pattern, or no active pattern and the same snapshot as the capture before. */
  predicate Quiet(h: seq<Capture>, i: nat)
    requires i < |h|
  {
    !h[i].active && (h[i].idle || (i > 0 && h[i - 1].snapshot == h[i].snapshot))
  }

  function QuietSuffix(h: seq<Capture>): nat {
    if |h| > 0 && Quiet(h, |h| - 1) then 1 + QuietSuffix(h[..|h| - 1]) else 0
  }

  /** QuietSuffix is the length of the longest suffix all of whose captures are quiet. */
  lemma {:induction false} QuietSuffixIsLongest(h: seq<Capture>)
    ensures QuietSuffix(h) <= |h|
    ensures forall i :: |h| - QuietSuffix(h) <= i < |h| ==> Quiet(h, i)
    ensures QuietSuffix(h) < |h| ==> !Quiet(h, |h| - QuietSuffix(h) - 1)
  {
    if |h| > 0 && Quiet(h, |h| - 1) {
      var t := h[..|h| - 1];
      QuietSuffixIsLongest(t);
      forall i | |h| - QuietSuffix(h) <= i < |h| ensures Quiet(h, i) {
        if i < |t| { assert Quiet(t, i); }
      }
      if QuietSuffix(h) < |h| { assert !Quiet(t, |t| - QuietSuffix(t) - 1); }
    }
  }

  ghost predicate ScreenGoodFor(s: Screen, n: string) {
    var h := Get(s.captures, n, []);
    && Get(s.unchangedCount, n, 0) == QuietSuffix(h)
    && (n in s.lastPaneSnapshot <==> |h| > 0)
    && (n in s.lastPaneSnapshot ==> s.lastPaneSnapshot[n] == h[|h| - 1].snapshot)
  }

  ghost predicate ScreenGood(s: Screen) {
    forall n: string :: ScreenGoodFor(s, n)
  }

  /** What one capture does to the three screen maps, at the captured agent and elsewhere. */
  lemma DiffAt(s: Screen, name: string, c: Capture, threshold: int, now: int, n: string)
    ensures var (s', isIdle) := DiffCapture(s, name, c, threshold, now);
            var same := name in s.lastPaneSnapshot && s.lastPaneSnapshot[name] == c.snapshot;
            var quiet := !c.active && (c.idle || same);
            && name in s'.lastPaneSnapshot && s'.lastPaneSnapshot[name] == c.snapshot
            && Get(s'.captures, name, []) == Get(s.captures, name, []) + [c]
            && Get(s'.unchangedCount, name, 0) == (if quiet then Get(s.unchangedCount, name, 0) + 1 else 0)
            && (isIdle <==> quiet && Get(s'.unchangedCount, name, 0) >= threshold)
            && (n != name ==>
                  (n in s'.lastPaneSnapshot <==> n in s.lastPaneSnapshot) &&
                  (n in s.lastPaneSnapshot ==> s'.lastPaneSnapshot[n] == s.lastPaneSnapshot[n]) &&
                  Get(s'.captures, n, []) == Get(s.captures, n, []) &&
                  Get(s'.unchangedCount, n, 0) == Get(s.unchangedCount, n, 0))
  {
  }

  lemma DiffKeepsScreenFor(s: Screen, name: string, c: Capture, threshold: int, now: int, n: string)
    requires ScreenGoodFor(s, n)
    ensures ScreenGoodFor(DiffCapture(s, name, c, threshold, now).0, n)
  {
    hide DiffCapture;
    var h := Get(s.captures, name, []);
    DiffAt(s, name, c, threshold, now, n);
    assert (h + [c])[..|h|] == h;
  }

  /** The verdict of one screen diff, in terms of the history: idle exactly when the newest capture
      is quiet and the quiet suffix has reached the threshold. */
  lemma DiffVerdict(s: Screen, name: string, c: Capture, threshold: int, now: int)
    requires ScreenGood(s)
    ensures var (s', isIdle) := DiffCapture(s, name, c, threshold, now);
            var h := Get(s'.captures, name, []);
            && ScreenGood(s')
            && h == Get(s.captures, name, []) + [c]
            && (isIdle <==> Quiet(h, |h| - 1) && QuietSuffix(h) >= threshold)
  {
    hide DiffCapture;
    var s' := DiffCapture(s, name, c, threshold, now).0;
    forall n: string ensures ScreenGoodFor(s', n) {
      assert ScreenGoodFor(s, n);
      DiffKeepsScreenFor(s, name, c, threshold, now, n);
    }
    assert ScreenGoodFor(s, name) && ScreenGoodFor(s', name);
    DiffAt(s, name, c, threshold, now, name);
  }

  lemma CleanupKeepsScreen(s: Screen, name: string)
    requires ScreenGood(s)
    ensures ScreenGood(CleanScreen(s, name))
  {
    forall n: string ensures ScreenGoodFor(CleanScreen(s, name), n) {
      assert ScreenGoodFor(s, n);
    }
  }

  // What each leaf leaves alone.

  lemma DetectionFrame(o: Oracle, db: Db, m: Monitor, engine: string)
    ensures var m' := GetDetection(o, db, m, engine).0; m' == m.(compiled := m'.compiled)
  {
    hide Parse;
  }

  lemma CaptureFrame(db: Db, m: Monitor, a: AgentRecord, resp: Response, now: int)
    ensures var c := CapturePaneOutput(db, m, a, resp, now);
            && c.m == m.(counters := c.m.counters, failureSnapshot := c.m.failureSnapshot)
            && (resp.Answered? ==> c.outcome == Pane(resp.data) && c.db == db)
            && (resp.Refused? ==> !c.outcome.Pane?)
  {
    hide Write, Noted, Dropped, Counted, Get;
  }

  lemma ExitFrame(o: Oracle, db: Db, m: Monitor, a: AgentRecord, pane: string, now: int)
    ensures var e := DetectCliExit(o, db, m, a, pane, now);
            && (e.verdict != Yes ==>
                  e.db == db && e.m == m.(counters := e.m.counters, failureSnapshot := e.m.failureSnapshot))
            && (e.verdict == Yes ==>
                  e.m.screen == CleanScreen(m.screen, a.name) && e.m.compiled == m.compiled)
  {
    hide Evidence, InHealGrace, Key, ExitReason, Noted, Dropped, Counted, CleanScreen, CleanCounters, Get;
  }

  lemma HealFrame(o: Oracle, db: Db, m: Monitor, a: AgentRecord, pane: string, now: int)
    ensures var e := DetectCliHealed(o, db, m, a, pane, now);
            e.m.screen == m.screen && e.m.compiled == m.compiled
  {
    hide Write, Evidence, Key, Get, ShellPrompt, StoredSnapshot, Noted, Dropped, Counted;
  }

  lemma ContextFrame(o: Oracle, db: Db, m: Monitor, a: AgentRecord, pane: string, now: int)
    ensures var m' := RecordContextPercent(o, db, m, a, pane, now).1; m' == m.(compiled := m'.compiled)
  {
    hide Write, GetDetection, ContextPct;
    DetectionFrame(o, db, m, a.engine);
  }

  lemma ActivityFrame(m: Monitor, name: string, act: Activity, p: bool)
    ensures var m' := NoteActivity(m, name, act, p).0; m' == m.(lastActivityTs := m'.lastActivityTs)
  {
  }

  lemma DiffFrame(o: Oracle, db: Db, m: Monitor, a: AgentRecord, pane: string, now: int)
    ensures var m' := CheckScreenDiff(o, db, m, a, pane, now).0;
            m' == m.(screen := m'.screen, compiled := m'.compiled)
  {
    hide Observe, Threshold, GetDetection, DiffCapture;
    DetectionFrame(o, db, m, a.engine);
  }

  lemma LivePaneFrame(o: Oracle, db: Db, m: Monitor, a: AgentRecord, pane: string, now: int)
    ensures var m' := AfterLivePane(o, db, m, a, pane, now).m;
            m' == m.(screen := m'.screen, compiled := m'.compiled)
  {
    hide RecordContextPercent, CheckScreenDiff, HandleIdleTransitions, TouchLatest;
    ContextFrame(o, db, m, a, pane, now);
    var (db1, m1) := RecordContextPercent(o, db, m, a, pane, now);
    DiffFrame(o, db1, m1, a, pane, now);
  }

  /** `checkScreenDiff` says idle exactly when the newest capture is quiet and the quiet suffix has
      reached the threshold; so "idle" and "the suffix reached the threshold" agree for every
      threshold of at least one, and for a smaller one exactly while the newest capture is quiet. */
  lemma IdleVerdict(o: Oracle, db: Db, m: Monitor, agent: AgentRecord, pane: string, now: int)
    requires ScreenGood(m.screen)
    ensures var (m', isIdle) := CheckScreenDiff(o, db, m, agent, pane, now);
            var h := Get(m'.screen.captures, agent.name, []);
            var d := GetDetection(o, db, m, agent.engine).1;
            && ScreenGood(m'.screen)
            && h == Get(m.screen.captures, agent.name, []) + [Observe(o, d, pane)]
            && (isIdle <==> Quiet(h, |h| - 1) && QuietSuffix(h) >= Threshold(d))
            && ((isIdle <==> QuietSuffix(h) >= Threshold(d)) <==> Threshold(d) >= 1 || Quiet(h, |h| - 1))
  {
    hide DiffCapture, GetDetection, Observe, Threshold;
    var d := GetDetection(o, db, m, agent.engine).1;
    DiffVerdict(m.screen, agent.name, Observe(o, d, pane), Threshold(d), now);
  }

  lemma LivePaneKeepsScreen(o: Oracle, db: Db, m: Monitor, a: AgentRecord, pane: string, now: int)
    requires ScreenGood(m.screen)
    ensures ScreenGood(AfterLivePane(o, db, m, a, pane, now).m.screen)
  {
    hide RecordContextPercent, CheckScreenDiff, HandleIdleTransitions, TouchLatest, ScreenGood;
    ContextFrame(o, db, m, a, pane, now);
    var (db1, m1) := RecordContextPercent(o, db, m, a, pane, now);
    IdleVerdict(o, db1, m1, a, pane, now);
  }

  lemma CaptureKeepsScreen(o: Oracle, w: World, id: nat, resp: Response)
    requires ScreenGood(w.m.screen) && id in w.polls
    ensures ScreenGood(Step(o, w, ResumeCapture(id, resp)).m.screen)
  {
    hide CapturePaneOutput, DetectCliExit, DetectCliHealed, AfterLivePane, CheckScreenDiff, HandleIdleTransitions;
    hide ScreenGood, CleanScreen;
    match w.polls[id]
    case FastCapture(a) =>
      var c := CapturePaneOutput(w.db, w.m, a, resp, w.now);
      CaptureFrame(w.db, w.m, a, resp, w.now);
      if c.outcome.Pane? { IdleVerdict(o, c.db, c.m, a, c.outcome.text, w.now); }
    case FullCapture(a) =>
      var c := CapturePaneOutput(w.db, w.m, a, resp, w.now);
      CaptureFrame(w.db, w.m, a, resp, w.now);
      if c.outcome.Pane? {
        var e := DetectCliExit(o, c.db, c.m, a, c.outcome.text, w.now);
        ExitFrame(o, c.db, c.m, a, c.outcome.text, w.now);
        CleanupKeepsScreen(c.m.screen, a.name);
        if e.verdict == No { LivePaneKeepsScreen(o, e.db, e.m, a, c.outcome.text, w.now); }
      }
    case FailedCapture(a) =>
      if resp.Answered? { HealFrame(o, w.db, w.m, a, resp.data, w.now); }
    case _ =>
  }

  /** Steps other than a resumed capture and a cleanup leave most of the monitor alone. */
  lemma ActivityStepFrame(o: Oracle, db: Db, m: Monitor, a: AgentRecord, p: bool, act: Activity, now: int)
    ensures var m' := AfterFastActivity(o, db, m, a, act, now).m;
            m' == m.(compiled := m'.compiled, lastActivityTs := m'.lastActivityTs)
    ensures var m' := AfterFullActivity(db, m, a, p, act, now).m;
            m' == m.(compiled := m'.compiled, lastActivityTs := m'.lastActivityTs)
  {
    hide GetDetection, NoteActivity, HandleIdleTransitions;
    DetectionFrame(o, db, m, a.engine);
    var (m1, d) := GetDetection(o, db, m, a.engine);
    ActivityFrame(m1, a.name, act, d.Some?);
    ActivityFrame(m, a.name, act, p);
  }

  lemma BeginFrame(o: Oracle, db: Db, m: Monitor, name: string)
    ensures var m' := BeginFull(o, db, m, name).m; m' == m.(compiled := m'.compiled)
    ensures BeginFailed(db, m, name).m == m
  {
    hide GetDetection;
    if name in db.rows { DetectionFrame(o, db, m, db.rows[name].engine); }
  }

  lemma OtherStepFrame(o: Oracle, w: World, e: Event)
    requires !e.ResumeCapture? && !e.Cleanup?
    ensures var m' := Step(o, w, e).m;
            m' == w.m.(compiled := m'.compiled, lastActivityTs := m'.lastActivityTs)
  {
    hide AfterFastActivity, AfterFullActivity, AfterFastCapture, AfterFullCapture, AfterFailedCapture, CleanupAgent;
    hide BeginFull, BeginFailed, Write, TouchLatest;
    match e
    case StartFull(id, name) => BeginFrame(o, w.db, w.m, name);
    case StartFailed(id, name) => BeginFrame(o, w.db, w.m, name);
    case ResumeActivity(id, act) =>
      if id in w.polls {
        match w.polls[id]
        case FastActivity(a) => ActivityStepFrame(o, w.db, w.m, a, false, act, w.now);
        case FullActivity(a, p) => ActivityStepFrame(o, w.db, w.m, a, p, act, w.now);
        case _ =>
      }
    case _ =>
  }

  lemma StepKeepsScreen(o: Oracle, w: World, e: Event)
    requires ScreenGood(w.m.screen)
    ensures ScreenGood(Step(o, w, e).m.screen)
  {
    hide ScreenGood, AfterFastCapture, AfterFullCapture, AfterFailedCapture;
    match e
    case ResumeCapture(id, resp) => if id in w.polls { CaptureKeepsScreen(o, w, id, resp); }
    case Cleanup(name) => CleanupKeepsScreen(w.m.screen, name);
    case _ =>
      OtherStepFrame(o, w, e);
      hide Step;
  }

  /** Throughout every run the counter of every agent is the length of the longest quiet suffix of
      its captures since the last cleanup. */
  lemma {:induction false} CounterIsQuietSuffix(o: Oracle, ws: seq<World>, es: seq<Event>, i: nat, name: string)
    requires IsRun(o, ws, es) && ScreenGood(ws[0].m.screen) && i < |ws|
    ensures ScreenGood(ws[i].m.screen)
    ensures Get(ws[i].m.screen.unchangedCount, name, 0) == QuietSuffix(Get(ws[i].m.screen.captures, name, []))
  {
    if i > 0 {
      CounterIsQuietSuffix(o, ws, es, i - 1, name);
      StepKeepsScreen(o, ws[i - 1], es[i - 1]);
    }
    assert ScreenGoodFor(ws[i].m.screen, name);
  }

  // ── Landed writes of one kind for one agent ──

  function Times(log: seq<Landed>, actor: Actor, name: string): seq<int> {
    if |log| == 0 then []
    else
      Times(log[..|log| - 1], actor, name) +
      (if log[|log| - 1].actor == actor && log[|log| - 1].read.name == name then [log[|log| - 1].at] else [])
  }

  lemma TimesAppend(log: seq<Landed>, e: Landed, actor: Actor, name: string)
    ensures Times(log + [e], actor, name) ==
            Times(log, actor, name) + (if e.actor == actor && e.read.name == name then [e.at] else [])
  {
    assert (log + [e])[..|log|] == log;
  }

  lemma WriteTimes(db: Db, who: Actor, read: AgentRecord, to: AgentState, extra: Extra, now: int, actor: Actor, name: string)
    ensures var a := Write(db, who, read, to, extra, now);
            Times(a.db.log, actor, name) ==
            Times(db.log, actor, name) + (if a.ok && who == actor && read.name == name then [now] else [])
  {
    var a := Write(db, who, read, to, extra, now);
    if a.ok { TimesAppend(db.log, a.db.log[|db.log|], actor, name); }
  }

  // ── Grace period before going idle ──

  ghost predicate GraceGood(s: Screen, now: int) {
    forall n: string, t: int :: t in Get(s.activity, n, []) ==>
      n in s.lastActivityDetected && t <= s.lastActivityDetected[n] <= now
  }

  lemma DiffKeepsGrace(s: Screen, name: string, c: Capture, threshold: int, now: int)
    requires GraceGood(s, now)
    ensures GraceGood(DiffCapture(s, name, c, threshold, now).0, now)
  {
    var s' := DiffCapture(s, name, c, threshold, now).0;
    assert (s'.activity == s.activity && s'.lastActivityDetected == s.lastActivityDetected) ||
           (s'.activity == s.activity[name := Get(s.activity, name, []) + [now]] &&
            s'.lastActivityDetected == s.lastActivityDetected[name := now]);
    hide DiffCapture;
    forall n: string, t: int | t in Get(s'.activity, n, [])
      ensures n in s'.lastActivityDetected && t <= s'.lastActivityDetected[n] <= now
    {
      if t in Get(s.activity, n, []) { assert s.lastActivityDetected[n] <= now; }
    }
  }

  lemma CheckKeepsGrace(o: Oracle, db: Db, m: Monitor, a: AgentRecord, pane: string, now: int)
    requires GraceGood(m.screen, now)
    ensures GraceGood(CheckScreenDiff(o, db, m, a, pane, now).0.screen, now)
  {
    hide DiffCapture, GetDetection, Observe, Threshold, GraceGood;
    var d := GetDetection(o, db, m, a.engine).1;
    DiffKeepsGrace(m.screen, a.name, Observe(o, d, pane), Threshold(d), now);
  }

  lemma LivePaneKeepsGrace(o: Oracle, db: Db, m: Monitor, a: AgentRecord, pane: string, now: int)
    requires GraceGood(m.screen, now)
    ensures GraceGood(AfterLivePane(o, db, m, a, pane, now).m.screen, now)
  {
    hide RecordContextPercent, CheckScreenDiff, HandleIdleTransitions, TouchLatest, GraceGood;
    ContextFrame(o, db, m, a, pane, now);
    var (db1, m1) := RecordContextPercent(o, db, m, a, pane, now);
    CheckKeepsGrace(o, db1, m1, a, pane, now);
  }

  lemma CleanupKeepsGrace(s: Screen, name: string, now: int)
    requires GraceGood(s, now)
    ensures GraceGood(CleanScreen(s, name), now)
  {
  }

  lemma CaptureKeepsGrace(o: Oracle, w: World, id: nat, resp: Response)
    requires GraceGood(w.m.screen, w.now) && id in w.polls
    ensures GraceGood(Step(o, w, ResumeCapture(id, resp)).m.screen, w.now)
  {
    hide CapturePaneOutput, DetectCliExit, DetectCliHealed, AfterLivePane, CheckScreenDiff, HandleIdleTransitions;
    hide GraceGood, CleanScreen;
    match w.polls[id]
    case FastCapture(a) =>
      var c := CapturePaneOutput(w.db, w.m, a, resp, w.now);
      CaptureFrame(w.db, w.m, a, resp, w.now);
      if c.outcome.Pane? { CheckKeepsGrace(o, c.db, c.m, a, c.outcome.text, w.now); }
    case FullCapture(a) =>
      var c := CapturePaneOutput(w.db, w.m, a, resp, w.now);
      CaptureFrame(w.db, w.m, a, resp, w.now);
      if c.outcome.Pane? {
        var e := DetectCliExit(o, c.db, c.m, a, c.outcome.text, w.now);
        ExitFrame(o, c.db, c.m, a, c.outcome.text, w.now);
        CleanupKeepsGrace(c.m.screen, a.name, w.now);
        if e.verdict == No { LivePaneKeepsGrace(o, e.db, e.m, a, c.outcome.text, w.now); }
      }
    case FailedCapture(a) =>
      if resp.Answered? { HealFrame(o, w.db, w.m, a, resp.data, w.now); }
    case _ =>
  }

  lemma StepKeepsGrace(o: Oracle, w: World, e: Event)
    requires GraceGood(w.m.screen, w.now)
    ensures GraceGood(Step(o, w, e).m.screen, Step(o, w, e).now)
  {
    hide AfterFastCapture, AfterFullCapture, AfterFailedCapture, CleanScreen;
    match e
    case ResumeCapture(id, resp) => if id in w.polls { CaptureKeepsGrace(o, w, id, resp); }
    case Cleanup(name) => CleanupKeepsGrace(w.m.screen, name, w.now);
    case _ =>
      OtherStepFrame(o, w, e);
      assert Step(o, w, e).now >= w.now;
      hide Step;
  }

  /** Every active→idle write happens with no detected activity inside the grace period. */
  lemma IdleOnlyAfterGrace(o: Oracle, w: World, e: Event, name: string)
    requires WorldGood(w) && GraceGood(w.m.screen, w.now)
    requires |Times(Step(o, w, e).db.log, IdleDetected, name)| > |Times(w.db.log, IdleDetected, name)|
    ensures e.ResumeActivity? || e.ResumeCapture?
    ensures e.id in w.polls && !w.polls[e.id].FullFinish? && w.polls[e.id].agent.name == name
    ensures var m' := Step(o, w, e).m;
            forall t :: t in Get(m'.screen.activity, name, []) ==> w.now - t >= GraceMs(m', w.polls[e.id].agent.engine)
  {
    StepKeepsGrace(o, w, e);
    WhoGoesIdle(o, w, e, name);
  }

  lemma {:induction false} RunKeepsGrace(o: Oracle, ws: seq<World>, es: seq<Event>, i: nat)
    requires IsRun(o, ws, es) && GraceGood(ws[0].m.screen, ws[0].now) && i < |ws|
    ensures GraceGood(ws[i].m.screen, ws[i].now)
  {
    hide GraceGood, Step;
    if i > 0 {
      RunKeepsGrace(o, ws, es, i - 1);
      StepKeepsGrace(o, ws[i - 1], es[i - 1]);
    }
  }

  /** In every run, whichever step turns an agent idle, no activity of the agent was detected within
      the grace period before it. */
  lemma RunsGoIdleOnlyAfterGrace(o: Oracle, ws: seq<World>, es: seq<Event>, i: nat, name: string)
    requires IsRun(o, ws, es) && WorldGood(ws[0]) && GraceGood(ws[0].m.screen, ws[0].now) && i < |es|
    requires |Times(ws[i + 1].db.log, IdleDetected, name)| > |Times(ws[i].db.log, IdleDetected, name)|
    ensures es[i].ResumeActivity? || es[i].ResumeCapture?
    ensures es[i].id in ws[i].polls && !ws[i].polls[es[i].id].FullFinish? && ws[i].polls[es[i].id].agent.name == name
    ensures var m' := ws[i + 1].m;
            forall t :: t in Get(m'.screen.activity, name, []) ==>
              ws[i].now - t >= GraceMs(m', ws[i].polls[es[i].id].agent.engine)
  {
    hide GraceGood, Step, WorldGood, Times, GraceMs;
    RunKeepsWorld(o, ws, es, i, i);
    RunKeepsGrace(o, ws, es, i);
    IdleOnlyAfterGrace(o, ws[i], es[i], name);
  }

  lemma IdleWriteTimes(db: Db, m: Monitor, a: AgentRecord, isIdle: bool, now: int, actor: Actor, name: string)
    requires actor != ActivityDetected && Consistent(db)
    ensures var db' := HandleIdleTransitions(db, m, a, isIdle, now);
            && |Times(db.log, actor, name)| <= |Times(db'.log, actor, name)|
            && (|Times(db'.log, actor, name)| > |Times(db.log, actor, name)| ==>
                  actor == IdleDetected && a.name == name &&
                  now - Get(m.screen.lastActivityDetected, name, 0) >= GraceMs(m, a.engine))
            && (actor != IdleDetected ==> Times(db'.log, actor, name) == Times(db.log, actor, name))
  {
    if a.name in db.rows {
      WriteTimes(db, IdleDetected, db.rows[a.name], Idle, Touch(now), now, actor, name);
      WriteTimes(db, ActivityDetected, db.rows[a.name], Active, Touch(now), now, actor, name);
    }
  }

  lemma CaptureTimes(db: Db, m: Monitor, a: AgentRecord, resp: Response, now: int, actor: Actor, name: string)
    requires actor != CaptureFailed
    ensures Times(CapturePaneOutput(db, m, a, resp, now).db.log, actor, name) == Times(db.log, actor, name)
  {
    if resp.Refused? { WriteTimes(db, CaptureFailed, a, Failed, Failure(now, resp.error), now, actor, name); }
  }

  lemma ExitTimes(o: Oracle, db: Db, m: Monitor, a: AgentRecord, pane: string, now: int, actor: Actor, name: string)
    ensures var e := DetectCliExit(o, db, m, a, pane, now);
            Times(e.db.log, actor, name) ==
            Times(db.log, actor, name) + (if e.verdict == Yes && actor == CliExit && a.name == name then [now] else [])
  {
    WriteTimes(db, CliExit, a, Failed, Failure(now, ExitReason(o, pane)), now, actor, name);
  }

  lemma ContextTimes(o: Oracle, db: Db, m: Monitor, a: AgentRecord, pane: string, now: int, actor: Actor, name: string)
    requires actor != ContextRead
    ensures Times(RecordContextPercent(o, db, m, a, pane, now).0.log, actor, name) == Times(db.log, actor, name)
  {
    var pct := ContextPct(o, GetDetection(o, db, m, a.engine).1, a.engine, pane);
    if pct.Some? && a.name in db.rows {
      var latest := db.rows[a.name];
      WriteTimes(db, ContextRead, latest, latest.state, Context(pct.value, now), now, actor, name);
    }
  }

  lemma TouchTimes(db: Db, n: string, now: int, actor: Actor, name: string)
    requires actor != PollDone
    ensures Times(TouchLatest(db, n, now).log, actor, name) == Times(db.log, actor, name)
  {
    if n in db.rows { WriteTimes(db, PollDone, db.rows[n], db.rows[n].state, Touch(now), now, actor, name); }
  }

  lemma WhoGoesIdle(o: Oracle, w: World, e: Event, name: string)
    requires WorldGood(w)
    requires |Times(Step(o, w, e).db.log, IdleDetected, name)| > |Times(w.db.log, IdleDetected, name)|
    ensures e.ResumeActivity? || e.ResumeCapture?
    ensures e.id in w.polls && !w.polls[e.id].FullFinish? && w.polls[e.id].agent.name == name
    ensures var m' := Step(o, w, e).m;
            w.now - Get(m'.screen.lastActivityDetected, name, 0) >= GraceMs(m', w.polls[e.id].agent.engine)
  {
    hide HandleIdleTransitions, GetDetection, NoteActivity, Times, GraceMs;
    hide AfterFastCapture, AfterFullCapture, AfterFailedCapture;
    match e
    case ResumeActivity(id, act) =>
      match w.polls[id] {
        case FastActivity(a) =>
          var (m1, d) := GetDetection(o, w.db, w.m, a.engine);
          IdleWriteTimes(w.db, NoteActivity(m1, a.name, act, d.Some?).0, a, true, w.now, IdleDetected, name);
        case FullActivity(a, p) =>
          IdleWriteTimes(w.db, NoteActivity(w.m, a.name, act, p).0, a, true, w.now, IdleDetected, name);
        case _ =>
      }
    case ResumeCapture(id, resp) =>
      CaptureWriteTimes(o, w, id, resp, IdleDetected, name);
    case _ => OutsideTimes(o, w, e, IdleDetected, name);
  }

  lemma LivePaneTimes(o: Oracle, db: Db, m: Monitor, a: AgentRecord, pane: string, now: int, actor: Actor, name: string)
    requires actor in {IdleDetected, CaptureFailed, CliExit, CliHealed} && DbGood(db)
    ensures var s := AfterLivePane(o, db, m, a, pane, now);
            && |Times(db.log, actor, name)| <= |Times(s.db.log, actor, name)|
            && (actor != IdleDetected ==> Times(s.db.log, actor, name) == Times(db.log, actor, name))
            && (|Times(s.db.log, actor, name)| > |Times(db.log, actor, name)| ==>
                  a.name == name && now - Get(s.m.screen.lastActivityDetected, name, 0) >= GraceMs(s.m, a.engine))
  {
    hide RecordContextPercent, CheckScreenDiff, HandleIdleTransitions, TouchLatest, Times, GraceMs;
    ContextTimes(o, db, m, a, pane, now, actor, name);
    ContextIsGood(o, db, m, a, pane, now);
    var (db1, m1) := RecordContextPercent(o, db, m, a, pane, now);
    var (m2, isIdle) := CheckScreenDiff(o, db1, m1, a, pane, now);
    IdleWriteTimes(db1, m2, a, isIdle, now, actor, name);
    TouchTimes(HandleIdleTransitions(db1, m2, a, isIdle, now), a.name, now, actor, name);
  }

  lemma RefusalTimes(db: Db, m: Monitor, a: AgentRecord, resp: Response, now: int, actor: Actor, name: string)
    ensures var c := CapturePaneOutput(db, m, a, resp, now);
            Times(c.db.log, actor, name) ==
            Times(db.log, actor, name) + (if c.db != db && actor == CaptureFailed && a.name == name then [now] else [])
    ensures CapturePaneOutput(db, m, a, resp, now).db != db ==> resp.Refused?
  {
    hide Noted, Dropped, Counted, Times;
    if resp.Refused? { WriteTimes(db, CaptureFailed, a, Failed, Failure(now, resp.error), now, actor, name); }
  }

  function ExitVerdict(o: Oracle, w: World, a: AgentRecord, resp: Response): Verdict
    requires resp.Answered?
  {
    DetectCliExit(o, w.db, CapturePaneOutput(w.db, w.m, a, resp, w.now).m, a, resp.data, w.now).verdict
  }

  function HealVerdict(o: Oracle, w: World, a: AgentRecord, pane: string): Verdict {
    DetectCliHealed(o, w.db, w.m, a, pane, w.now).verdict
  }

  /** What a resumed fast or full capture does to the landed writes. */
  lemma FastCaptureTimes(o: Oracle, db: Db, m: Monitor, a: AgentRecord, resp: Response, now: int, actor: Actor, name: string)
    requires actor in {IdleDetected, CaptureFailed, CliExit, CliHealed}
    requires DbGood(db) && Known(db, a) && CanSuspend(a)
    ensures var s := AfterFastCapture(o, db, m, a, resp, now);
            var grew := |Times(s.db.log, actor, name)| > |Times(db.log, actor, name)|;
            && (actor == CliExit || actor == CliHealed ==> Times(s.db.log, actor, name) == Times(db.log, actor, name))
            && (grew && actor == IdleDetected ==>
                  a.name == name && now - Get(s.m.screen.lastActivityDetected, name, 0) >= GraceMs(s.m, a.engine))
            && (grew && actor == CaptureFailed ==>
                  a.name == name && CapturePaneOutput(db, m, a, resp, now).db != db)
  {
    hide CapturePaneOutput, CheckScreenDiff, HandleIdleTransitions, Times, GraceMs;
    RefusalTimes(db, m, a, resp, now, actor, name);
    CaptureFrame(db, m, a, resp, now);
    var c := CapturePaneOutput(db, m, a, resp, now);
    CaptureIsGood(db, m, a, resp, now);
    if c.outcome.Pane? {
      var (m1, isIdle) := CheckScreenDiff(o, c.db, c.m, a, c.outcome.text, now);
      IdleWriteTimes(c.db, m1, a, isIdle, now, actor, name);
    }
  }

  lemma FullCaptureTimes(o: Oracle, db: Db, m: Monitor, a: AgentRecord, resp: Response, now: int, actor: Actor, name: string)
    requires actor in {IdleDetected, CaptureFailed, CliExit, CliHealed}
    requires DbGood(db) && Known(db, a) && CanSuspend(a)
    ensures var s := AfterFullCapture(o, db, m, a, resp, now);
            var c := CapturePaneOutput(db, m, a, resp, now);
            var grew := |Times(s.db.log, actor, name)| > |Times(db.log, actor, name)|;
            && (actor == CliHealed ==> Times(s.db.log, actor, name) == Times(db.log, actor, name))
            && (grew && actor == IdleDetected ==>
                  a.name == name && now - Get(s.m.screen.lastActivityDetected, name, 0) >= GraceMs(s.m, a.engine))
            && (grew && actor == CaptureFailed ==> a.name == name && c.db != db)
            && (grew && actor == CliExit ==>
                  a.name == name && resp.Answered? && c.db == db &&
                  DetectCliExit(o, db, c.m, a, resp.data, now).verdict == Yes)
  {
    hide CapturePaneOutput, DetectCliExit, AfterLivePane, Times, GraceMs;
    RefusalTimes(db, m, a, resp, now, actor, name);
    CaptureFrame(db, m, a, resp, now);
    var c := CapturePaneOutput(db, m, a, resp, now);
    CaptureIsGood(db, m, a, resp, now);
    if c.outcome.Pane? {
      var text := c.outcome.text;
      ExitTimes(o, c.db, c.m, a, text, now, actor, name);
      CliExitIsGood(o, c.db, c.m, a, text, now);
      var e := DetectCliExit(o, c.db, c.m, a, text, now);
      LivePaneTimes(o, e.db, e.m, a, text, now, actor, name);
    }
  }

  lemma HealTimes(o: Oracle, db: Db, m: Monitor, a: AgentRecord, pane: string, now: int, actor: Actor, name: string)
    ensures var e := DetectCliHealed(o, db, m, a, pane, now);
            Times(e.db.log, actor, name) ==
            Times(db.log, actor, name) + (if e.verdict == Yes && actor == CliHealed && a.name == name then [now] else [])
  {
    hide Noted, Dropped, Counted, Times, Evidence, StoredSnapshot, RejectHeal, ShellPrompt;
    WriteTimes(db, CliHealed, a, Active, ClearFailure, now, actor, name);
  }

  /** Which write a resumed capture can land: a capture failure, an exit verdict or a heal only
      through the function that decides it. */
  lemma CaptureWriteTimes(o: Oracle, w: World, id: nat, resp: Response, actor: Actor, name: string)
    requires actor in {IdleDetected, CaptureFailed, CliExit, CliHealed}
    requires WorldGood(w) && id in w.polls
    requires |Times(Step(o, w, ResumeCapture(id, resp)).db.log, actor, name)| > |Times(w.db.log, actor, name)|
    ensures var p := w.polls[id];
            !p.FullFinish? && p.agent.name == name &&
            (actor == IdleDetected ==>
               var m' := Step(o, w, ResumeCapture(id, resp)).m;
               w.now - Get(m'.screen.lastActivityDetected, name, 0) >= GraceMs(m', p.agent.engine)) &&
            (actor == CaptureFailed ==>
               (p.FastCapture? || p.FullCapture?) && CapturePaneOutput(w.db, w.m, p.agent, resp, w.now).db != w.db) &&
            (actor == CliExit ==> resp.Answered? && p.FullCapture? && ExitVerdict(o, w, p.agent, resp) == Yes) &&
            (actor == CliHealed ==> resp.Answered? && p.FailedCapture? && HealVerdict(o, w, p.agent, resp.data) == Yes)
  {
    hide CapturePaneOutput, DetectCliExit, DetectCliHealed, AfterFastCapture, AfterFullCapture, Times, GraceMs;
    assert PollGood(w.db, w.polls[id]);
    match w.polls[id]
    case FastCapture(a) => FastCaptureTimes(o, w.db, w.m, a, resp, w.now, actor, name);
    case FullCapture(a) => FullCaptureTimes(o, w.db, w.m, a, resp, w.now, actor, name);
    case FailedCapture(a) =>
      if resp.Answered? { HealTimes(o, w.db, w.m, a, resp.data, w.now, actor, name); }
    case _ =>
  }

  lemma OutsideTimes(o: Oracle, w: World, e: Event, actor: Actor, name: string)
    requires actor in {IdleDetected, CaptureFailed, CliExit, CliHealed}
    requires !e.ResumeActivity? && !e.ResumeCapture?
    ensures Times(Step(o, w, e).db.log, actor, name) == Times(w.db.log, actor, name)
  {
    hide AfterFastActivity, AfterFastCapture, AfterFullActivity, AfterFullCapture, AfterFailedCapture, GetDetection, TouchLatest, CleanupAgent, Write, Times;
    match e
    case ResumeFinish(id) =>
      if id in w.polls && w.polls[id].FullFinish? { TouchTimes(w.db, w.polls[id].name, w.now, actor, name); }
    case DeliveryDone(n) =>
      if n in w.db.rows { WriteTimes(w.db, Delivery, w.db.rows[n], Active, Touch(w.now), w.now, actor, name); }
    case SweepProxy(n, proxy) =>
      if n in w.db.rows {
        WriteTimes(w.db, ProxySweep, w.db.rows[n], Failed, Failure(w.now, "Proxy disconnected"), w.now, actor, name);
      }
    case ProxyUnavailable(n, reason) =>
      if n in w.db.rows { WriteTimes(w.db, Background, w.db.rows[n], Failed, Failure(w.now, reason), w.now, actor, name); }
    case Lifecycle(read, to, extra) => WriteTimes(w.db, Outside, read, to, extra, w.now, actor, name);
    case _ =>
  }

  // ── Hysteresis ──

  /** How many checks at the end of the history count towards the threshold. */
  function Trailing(o: Oracle, h: seq<Check>): nat {
    if |h| > 0 && Evidence(o, h[|h| - 1]) then 1 + Trailing(o, h[..|h| - 1]) else 0
  }

  lemma {:induction false} TrailingAreEvidence(o: Oracle, h: seq<Check>, k: nat)
    requires k <= Trailing(o, h)
    ensures k <= |h| && forall i :: |h| - k <= i < |h| ==> Evidence(o, h[i])
  {
    if k > 0 { TrailingAreEvidence(o, h[..|h| - 1], k - 1); }
  }

  /** Different counters of these agents never share a key of `consecutiveFailures`. */
  ghost predicate Separate(names: set<string>) {
    forall c, c', n, n' :: n in names && n' in names && Key(c, n) == Key(c', n') ==> c == c' && n == n'
  }

  /** Exactly when: no agent is named like another agent's shell or heal counter. */
  lemma SeparateIff(names: set<string>)
    ensures Separate(names) <==>
            forall n :: n in names ==> Key(ShellCounter, n) !in names && Key(HealCounter, n) !in names
  {
    if forall n :: n in names ==> Key(ShellCounter, n) !in names && Key(HealCounter, n) !in names {
      forall c: Counter, c': Counter, n, n' | n in names && n' in names && Key(c, n) == Key(c', n')
        ensures c == c' && n == n'
      {
        KeysMeet(c, n, c', n');
      }
    } else {
      var n :| n in names && (Key(ShellCounter, n) in names || Key(HealCounter, n) in names);
      var c := if Key(ShellCounter, n) in names then ShellCounter else HealCounter;
      assert Key(c, n) == Key(CaptureCounter, Key(c, n));
      assert c != CaptureCounter;
    }
  }

  lemma ShellKeyIsNoHealKey(n: string, n': string)
    ensures Key(ShellCounter, n) != Key(HealCounter, n')
  {
    assert ("shell_" + n)[0] == 's';
    assert ("heal_" + n')[0] == 'h';
  }

  lemma KeysMeet(c: Counter, n: string, c': Counter, n': string)
    requires Key(c, n) == Key(c', n')
    ensures (c == c' && n == n') || (c == CaptureCounter && n == Key(c', n')) || (c' == CaptureCounter && n' == Key(c, n))
  {
    var s, h := "shell_", "heal_";
    if c == c' {
      if c == ShellCounter { assert n == (s + n)[6..] && n' == (s + n')[6..]; }
      if c == HealCounter { assert n == (h + n)[5..] && n' == (h + n')[5..]; }
    } else if c == ShellCounter && c' == HealCounter {
      ShellKeyIsNoHealKey(n, n');
    } else if c == HealCounter && c' == ShellCounter {
      ShellKeyIsNoHealKey(n', n);
    }
  }

  function History(k: Counters, c: Counter, n: string): seq<Check> {
    Get(k.checks, (c, n), [])
  }

  function CountOf(k: Counters, c: Counter, n: string): nat {
    Get(k.consecutiveFailures, Key(c, n), 0)
  }

  ghost predicate CounterGood(o: Oracle, k: Counters, c: Counter, n: string) {
    CountOf(k, c, n) <= Trailing(o, History(k, c, n))
  }

  ghost predicate CountersGood(o: Oracle, k: Counters, names: set<string>) {
    forall c: Counter, n :: n in names ==> CounterGood(o, k, c, n)
  }

  /** The one way a counter moves: a check is noted; the counter then is dropped, or has grown by one
      on evidence; other keys keep their value or are dropped. */
  ghost predicate Moves(o: Oracle, k: Counters, k': Counters, c: Counter, n: string, check: Check) {
    && k'.checks == Noted(k, c, n, check).checks
    && (forall key :: key in k'.consecutiveFailures && key != Key(c, n) ==>
          key in k.consecutiveFailures && k'.consecutiveFailures[key] == k.consecutiveFailures[key])
    && (Key(c, n) in k'.consecutiveFailures ==> Evidence(o, check) && CountOf(k', c, n) <= CountOf(k, c, n) + 1)
  }

  lemma MoveKeepsCounters(o: Oracle, k: Counters, k': Counters, names: set<string>, c: Counter, n: string, check: Check)
    requires Separate(names) && n in names && CountersGood(o, k, names) && Moves(o, k, k', c, n, check)
    ensures CountersGood(o, k', names)
    ensures Evidence(o, check) ==> Trailing(o, History(k', c, n)) >= CountOf(k, c, n) + 1
  {
    hide Evidence, Key;
    var h := History(k, c, n);
    assert (h + [check])[..|h|] == h;
    assert CounterGood(o, k, c, n);
    forall c': Counter, n' | n' in names ensures CounterGood(o, k', c', n') {
      assert CounterGood(o, k, c', n');
      if c' != c || n' != n {
        assert Key(c', n') != Key(c, n);
        assert History(k', c', n') == History(k, c', n');
      }
    }
  }

  lemma RefusalMoves(o: Oracle, k: Counters, db: Db, m: Monitor, a: AgentRecord, error: string, now: int)
    requires m.counters == Noted(k, CaptureCounter, a.name, CaptureCheck(false))
    ensures var c := CountRefusal(db, m, a, error, now);
            && Moves(o, k, c.m.counters, CaptureCounter, a.name, CaptureCheck(false))
            && (c.db != db ==> CountOf(k, CaptureCounter, a.name) + 1 >= FAILURE_THRESHOLD)
  {
    hide Moves, CountOf, Counted, Dropped, CountRefusal;
    var key := Key(CaptureCounter, a.name);
    var counted := Counted(m.counters, key, CountOf(k, CaptureCounter, a.name) + 1);
    RefusalCounters(k, db, m, a, error, now);
    CountedMoves(o, k, CaptureCounter, a.name, CaptureCheck(false));
    MovesDrop(o, k, counted, CaptureCounter, a.name, CaptureCheck(false));
  }

  /** The counters after a refusal: grown, and dropped once the failure has landed. */
  lemma RefusalCounters(k: Counters, db: Db, m: Monitor, a: AgentRecord, error: string, now: int)
    requires m.counters == Noted(k, CaptureCounter, a.name, CaptureCheck(false))
    ensures var c := CountRefusal(db, m, a, error, now);
            var key := Key(CaptureCounter, a.name);
            var count := CountOf(k, CaptureCounter, a.name) + 1;
            var counted := Counted(m.counters, key, count);
            && (c.m.counters == counted || c.m.counters == Dropped(counted, key))
            && (c.db != db ==> count >= FAILURE_THRESHOLD)
  {
    hide Write, Dropped, Counted;
    RejectedWrite(db, CaptureFailed, a, Failed, Failure(now, error), now);
  }

  lemma CountedMoves(o: Oracle, k: Counters, c: Counter, name: string, check: Check)
    requires Evidence(o, check)
    ensures Moves(o, k, Counted(Noted(k, c, name, check), Key(c, name), CountOf(k, c, name) + 1), c, name, check)
  {
    hide Key, Evidence;
  }

  lemma MovesDrop(o: Oracle, k: Counters, counted: Counters, c: Counter, name: string, check: Check)
    requires Moves(o, k, counted, c, name, check)
    ensures Moves(o, k, Dropped(counted, Key(c, name)), c, name, check)
  {
    hide Key, Evidence;
  }

  lemma CaptureMoves(o: Oracle, db: Db, m: Monitor, a: AgentRecord, resp: Response, now: int)
    ensures var c := CapturePaneOutput(db, m, a, resp, now);
            && Moves(o, m.counters, c.m.counters, CaptureCounter, a.name, CaptureCheck(resp.Answered?))
            && (c.db != db ==> resp.Refused? && CountOf(m.counters, CaptureCounter, a.name) + 1 >= FAILURE_THRESHOLD)
  {
    hide CountRefusal;
    if resp.Refused? {
      var k := Noted(m.counters, CaptureCounter, a.name, CaptureCheck(false));
      RefusalMoves(o, m.counters, db, m.(counters := k), a, resp.error, now);
    }
  }

  lemma RejectedWrite(db: Db, actor: Actor, read: AgentRecord, to: AgentState, extra: Extra, now: int)
    ensures !Write(db, actor, read, to, extra, now).ok ==> Write(db, actor, read, to, extra, now).db == db
  {
  }

  lemma CountExitMoves(o: Oracle, k: Counters, db: Db, m: Monitor, a: AgentRecord, pane: string, reason: string, check: Check, now: int)
    requires m.counters == Noted(k, ShellCounter, a.name, check) && Evidence(o, check)
    ensures var e := CountExit(db, m, a, pane, reason, now);
            && Moves(o, k, e.m.counters, ShellCounter, a.name, check)
            && (e.verdict == Yes ==> CountOf(k, ShellCounter, a.name) + 1 >= 2)
  {
    hide Evidence, Moves, CountOf, Counted, CleanCounters, CountExit;
    var count := CountOf(k, ShellCounter, a.name) + 1;
    var counted := Counted(m.counters, Key(ShellCounter, a.name), count);
    ExitCounters(k, db, m, a, pane, reason, check, now);
    CountedMoves(o, k, ShellCounter, a.name, check);
    CleanedMoves(o, k, counted, a.name, check);
  }

  /** The counters after an exit check that counts: grown, and cleaned once the verdict has landed. */
  lemma ExitCounters(k: Counters, db: Db, m: Monitor, a: AgentRecord, pane: string, reason: string, check: Check, now: int)
    requires m.counters == Noted(k, ShellCounter, a.name, check)
    ensures var e := CountExit(db, m, a, pane, reason, now);
            var count := CountOf(k, ShellCounter, a.name) + 1;
            var counted := Counted(m.counters, Key(ShellCounter, a.name), count);
            && e.m.counters == (if e.verdict == Yes then CleanCounters(counted, a.name) else counted)
            && (e.verdict == Yes ==> count >= 2)
  {
    hide Write, Key, CleanCounters, CleanScreen, Counted;
  }

  lemma CleanedMoves(o: Oracle, k: Counters, counted: Counters, name: string, check: Check)
    requires Moves(o, k, counted, ShellCounter, name, check)
    ensures Moves(o, k, CleanCounters(counted, name), ShellCounter, name, check)
  {
    hide Key, Evidence, CleanCounters;
    CleaningDrops(counted, name);
  }

  lemma CleaningDrops(k: Counters, name: string)
    ensures var k' := CleanCounters(k, name);
            && k'.checks == k.checks && Key(ShellCounter, name) !in k'.consecutiveFailures
            && forall key :: key in k'.consecutiveFailures ==>
                 key in k.consecutiveFailures && k'.consecutiveFailures[key] == k.consecutiveFailures[key]
  {
  }

  lemma ExitMoves(o: Oracle, db: Db, m: Monitor, a: AgentRecord, pane: string, now: int)
    ensures var e := DetectCliExit(o, db, m, a, pane, now);
            var check := ShellCheck(pane, InHealGrace(m, a.name, now));
            && Moves(o, m.counters, e.m.counters, ShellCounter, a.name, check)
            && (e.verdict == Yes ==> Evidence(o, check) && CountOf(m.counters, ShellCounter, a.name) + 1 >= 2)
  {
    hide Evidence, InHealGrace, ExitReason, CountExit;
    var check := ShellCheck(pane, InHealGrace(m, a.name, now));
    if Evidence(o, check) {
      var k := Noted(m.counters, ShellCounter, a.name, check);
      CountExitMoves(o, m.counters, db, m.(counters := k), a, pane, ExitReason(o, pane), check, now);
    }
  }

  lemma HealMoves(o: Oracle, db: Db, m: Monitor, a: AgentRecord, pane: string, now: int)
    ensures var e := DetectCliHealed(o, db, m, a, pane, now);
            var check := HealCheck(pane, StoredSnapshot(m, a.name));
            && Moves(o, m.counters, e.m.counters, HealCounter, a.name, check)
            && (e.verdict == Yes ==> Evidence(o, check) && CountOf(m.counters, HealCounter, a.name) + 1 >= 2)
  {
    hide Moves, CountOf, Evidence, StoredSnapshot, DetectCliHealed, Counted, Dropped;
    var check := HealCheck(pane, StoredSnapshot(m, a.name));
    HealCounters(o, db, m, a, pane, now);
    NotedDrops(o, m.counters, HealCounter, a.name, check);
    if Evidence(o, check) {
      CountedMoves(o, m.counters, HealCounter, a.name, check);
    }
  }

  /** The counters after a heal check: grown by a first live sign, else dropped. */
  lemma HealCounters(o: Oracle, db: Db, m: Monitor, a: AgentRecord, pane: string, now: int)
    ensures var e := DetectCliHealed(o, db, m, a, pane, now);
            var check := HealCheck(pane, StoredSnapshot(m, a.name));
            var noted, key := Noted(m.counters, HealCounter, a.name, check), Key(HealCounter, a.name);
            var count := CountOf(m.counters, HealCounter, a.name) + 1;
            && (e.m.counters == Dropped(noted, key) || (Evidence(o, check) && e.m.counters == Counted(noted, key, count)))
            && (e.verdict == Yes ==> Evidence(o, check) && count >= 2)
  {
    hide Write, Evidence, ShellPrompt, StoredSnapshot, Dropped, Counted, Key;
  }

  lemma NotedDrops(o: Oracle, k: Counters, c: Counter, name: string, check: Check)
    ensures Moves(o, k, Dropped(Noted(k, c, name, check), Key(c, name)), c, name, check)
  {
    hide Key, Evidence;
  }

  lemma CleanupKeepsCounters(o: Oracle, k: Counters, name: string, names: set<string>)
    requires CountersGood(o, k, names)
    ensures CountersGood(o, CleanCounters(k, name), names)
  {
    forall c: Counter, n | n in names ensures CounterGood(o, CleanCounters(k, name), c, n) {
      assert CounterGood(o, k, c, n);
    }
  }

  ghost predicate Grew(db: Db, db': Db, actor: Actor, n: string) {
    |Times(db'.log, actor, n)| > |Times(db.log, actor, n)|
  }

  /** A capture failure has three successive refusals behind it, an exit failure two successive shell
      signs, a heal two successive live panes unlike the stored snapshot. */
  ghost predicate LandedWithEvidence(o: Oracle, db: Db, db': Db, k: Counters, n: string) {
    && (Grew(db, db', CaptureFailed, n) ==> Trailing(o, History(k, CaptureCounter, n)) >= 3)
    && (Grew(db, db', CliExit, n) ==> Trailing(o, History(k, ShellCounter, n)) >= 2)
    && (Grew(db, db', CliHealed, n) ==> Trailing(o, History(k, HealCounter, n)) >= 2)
  }

  ghost predicate PollsWithin(w: World, names: set<string>) {
    forall id :: id in w.polls && !w.polls[id].FullFinish? ==> w.polls[id].agent.name in names
  }

  /** Only agents of `names` are polled. */
  predicate EventWithin(e: Event, names: set<string>) {
    match e
    case StartFast(_, name) => name in names
    case StartFull(_, name) => name in names
    case StartFailed(_, name) => name in names
    case _ => true
  }

  lemma FastCaptureNeedsEvidence(o: Oracle, w: World, id: nat, resp: Response, names: set<string>, n: string)
    requires WorldGood(w) && Separate(names) && PollsWithin(w, names) && CountersGood(o, w.m.counters, names)
    requires id in w.polls && w.polls[id].FastCapture?
    ensures var w' := Step(o, w, ResumeCapture(id, resp));
            CountersGood(o, w'.m.counters, names) && LandedWithEvidence(o, w.db, w'.db, w'.m.counters, n)
  {
    hide CapturePaneOutput, CheckScreenDiff, HandleIdleTransitions, CountersGood, Moves, Trailing, Times;
    var a := w.polls[id].agent;
    assert PollGood(w.db, w.polls[id]);
    var c := CapturePaneOutput(w.db, w.m, a, resp, w.now);
    CaptureMoves(o, w.db, w.m, a, resp, w.now);
    MoveKeepsCounters(o, w.m.counters, c.m.counters, names, CaptureCounter, a.name, CaptureCheck(resp.Answered?));
    if c.outcome.Pane? { DiffFrame(o, c.db, c.m, a, c.outcome.text, w.now); }
    FastCaptureTimes(o, w.db, w.m, a, resp, w.now, CaptureFailed, n);
    FastCaptureTimes(o, w.db, w.m, a, resp, w.now, CliExit, n);
    FastCaptureTimes(o, w.db, w.m, a, resp, w.now, CliHealed, n);
  }

  lemma FullCaptureNeedsEvidence(o: Oracle, w: World, id: nat, resp: Response, names: set<string>, n: string)
    requires WorldGood(w) && Separate(names) && PollsWithin(w, names) && CountersGood(o, w.m.counters, names)
    requires id in w.polls && w.polls[id].FullCapture?
    ensures var w' := Step(o, w, ResumeCapture(id, resp));
            CountersGood(o, w'.m.counters, names) && LandedWithEvidence(o, w.db, w'.db, w'.m.counters, n)
  {
    hide CapturePaneOutput, DetectCliExit, AfterLivePane, CountersGood, Moves, Trailing, Times;
    var a := w.polls[id].agent;
    assert PollGood(w.db, w.polls[id]);
    var c := CapturePaneOutput(w.db, w.m, a, resp, w.now);
    CaptureFrame(w.db, w.m, a, resp, w.now);
    CaptureMoves(o, w.db, w.m, a, resp, w.now);
    MoveKeepsCounters(o, w.m.counters, c.m.counters, names, CaptureCounter, a.name, CaptureCheck(resp.Answered?));
    if c.outcome.Pane? {
      var e := DetectCliExit(o, c.db, c.m, a, c.outcome.text, w.now);
      ExitMoves(o, c.db, c.m, a, c.outcome.text, w.now);
      var check := ShellCheck(c.outcome.text, InHealGrace(c.m, a.name, w.now));
      MoveKeepsCounters(o, c.m.counters, e.m.counters, names, ShellCounter, a.name, check);
      LivePaneFrame(o, e.db, e.m, a, c.outcome.text, w.now);
    }
    FullCaptureTimes(o, w.db, w.m, a, resp, w.now, CaptureFailed, n);
    FullCaptureTimes(o, w.db, w.m, a, resp, w.now, CliExit, n);
    FullCaptureTimes(o, w.db, w.m, a, resp, w.now, CliHealed, n);
  }

  lemma FailedCaptureNeedsEvidence(o: Oracle, w: World, id: nat, resp: Response, names: set<string>, n: string)
    requires WorldGood(w) && Separate(names) && PollsWithin(w, names) && CountersGood(o, w.m.counters, names)
    requires id in w.polls && w.polls[id].FailedCapture?
    ensures var w' := Step(o, w, ResumeCapture(id, resp));
            CountersGood(o, w'.m.counters, names) && LandedWithEvidence(o, w.db, w'.db, w'.m.counters, n)
  {
    hide DetectCliHealed, CountersGood, Moves, Trailing, Times;
    var a := w.polls[id].agent;
    if resp.Answered? {
      HealMoves(o, w.db, w.m, a, resp.data, w.now);
      var check := HealCheck(resp.data, StoredSnapshot(w.m, a.name));
      var e := DetectCliHealed(o, w.db, w.m, a, resp.data, w.now);
      MoveKeepsCounters(o, w.m.counters, e.m.counters, names, HealCounter, a.name, check);
      HealTimes(o, w.db, w.m, a, resp.data, w.now, CaptureFailed, n);
      HealTimes(o, w.db, w.m, a, resp.data, w.now, CliExit, n);
      HealTimes(o, w.db, w.m, a, resp.data, w.now, CliHealed, n);
    }
  }

  lemma ActivityTimes(o: Oracle, w: World, id: nat, act: Activity, actor: Actor, n: string)
    requires WorldGood(w) && actor in {CaptureFailed, CliExit, CliHealed}
    ensures Times(Step(o, w, ResumeActivity(id, act)).db.log, actor, n) == Times(w.db.log, actor, n)
  {
    hide HandleIdleTransitions, Times, GetDetection, NoteActivity;
    if id in w.polls {
      match w.polls[id]
      case FastActivity(a) =>
        var (m1, d) := GetDetection(o, w.db, w.m, a.engine);
        IdleWriteTimes(w.db, NoteActivity(m1, a.name, act, d.Some?).0, a, true, w.now, actor, n);
      case FullActivity(a, p) =>
        IdleWriteTimes(w.db, NoteActivity(w.m, a.name, act, p).0, a, true, w.now, actor, n);
      case _ =>
    }
  }

  lemma ActivityNeedsEvidence(o: Oracle, w: World, id: nat, act: Activity, names: set<string>, n: string)
    requires WorldGood(w) && Separate(names) && PollsWithin(w, names) && CountersGood(o, w.m.counters, names)
    ensures var w' := Step(o, w, ResumeActivity(id, act));
            CountersGood(o, w'.m.counters, names) && LandedWithEvidence(o, w.db, w'.db, w'.m.counters, n)
  {
    OtherStepFrame(o, w, ResumeActivity(id, act));
    ActivityTimes(o, w, id, act, CaptureFailed, n);
    ActivityTimes(o, w, id, act, CliExit, n);
    ActivityTimes(o, w, id, act, CliHealed, n);
    hide Step, CountersGood, Trailing, Times, CleanCounters, WorldGood, PollsWithin;
  }

  lemma OutsideNeedsEvidence(o: Oracle, w: World, e: Event, names: set<string>, n: string)
    requires WorldGood(w) && Separate(names) && PollsWithin(w, names) && CountersGood(o, w.m.counters, names)
    requires !e.ResumeCapture? && !e.ResumeActivity?
    ensures var w' := Step(o, w, e);
            CountersGood(o, w'.m.counters, names) && LandedWithEvidence(o, w.db, w'.db, w'.m.counters, n)
  {
    hide AfterFastActivity, AfterFullActivity, GetDetection, TouchLatest, Write;
    hide AfterFastCapture, AfterFullCapture, AfterFailedCapture, CountersGood, Trailing, Times, CleanCounters, WorldGood;
    hide PollsWithin, LandedWithEvidence;
    match e {
      case Cleanup(name) => CleanupKeepsCounters(o, w.m.counters, name, names);
      case _ => OtherStepFrame(o, w, e);
    }
    OutsideTimes(o, w, e, CaptureFailed, n);
    OutsideTimes(o, w, e, CliExit, n);
    OutsideTimes(o, w, e, CliHealed, n);
    NothingLanded(o, w.db, Step(o, w, e).db, Step(o, w, e).m.counters, n);
  }

  lemma NothingLanded(o: Oracle, db: Db, db': Db, k: Counters, n: string)
    requires !Grew(db, db', CaptureFailed, n) && !Grew(db, db', CliExit, n) && !Grew(db, db', CliHealed, n)
    ensures LandedWithEvidence(o, db, db', k, n)
  {
  }

  lemma StepNeedsEvidence(o: Oracle, w: World, e: Event, names: set<string>, n: string)
    requires WorldGood(w) && Separate(names) && PollsWithin(w, names) && CountersGood(o, w.m.counters, names)
    ensures var w' := Step(o, w, e);
            CountersGood(o, w'.m.counters, names) && LandedWithEvidence(o, w.db, w'.db, w'.m.counters, n)
  {
    hide AfterFastActivity, AfterFullActivity, GetDetection, TouchLatest, Write, LandedWithEvidence;
    hide AfterFastCapture, AfterFullCapture, AfterFailedCapture, CountersGood, Trailing, Times, CleanCounters;
    match e
    case ResumeCapture(id, resp) =>
      if id in w.polls {
        match w.polls[id]
        case FastCapture(_) => FastCaptureNeedsEvidence(o, w, id, resp, names, n);
        case FullCapture(_) => FullCaptureNeedsEvidence(o, w, id, resp, names, n);
        case FailedCapture(_) => FailedCaptureNeedsEvidence(o, w, id, resp, names, n);
        case _ => NothingLanded(o, w.db, w.db, w.m.counters, n);
      } else {
        NothingLanded(o, w.db, w.db, w.m.counters, n);
      }
    case ResumeActivity(id, act) => ActivityNeedsEvidence(o, w, id, act, names, n);
    case _ => OutsideNeedsEvidence(o, w, e, names, n);
  }

  lemma StepStaysWithin(o: Oracle, w: World, e: Event, names: set<string>)
    requires WorldGood(w) && PollsWithin(w, names) && EventWithin(e, names)
    ensures PollsWithin(Step(o, w, e), names)
  {
    hide CapturePaneOutput, DetectCliExit, AfterLivePane, HandleIdleTransitions, GetDetection, NoteActivity;
    hide CheckScreenDiff, DetectCliHealed, Write, TouchLatest;
    if e.ResumeCapture? { SuspendedPollIsFull(o, w, e.id, e.resp); }
  }

  /** A resumed capture suspends nothing but a full poll's closing stretch. */
  lemma SuspendedPollIsFull(o: Oracle, w: World, id: nat, resp: Response)
    ensures var w' := Step(o, w, ResumeCapture(id, resp));
            forall k :: k in w'.polls && !(k in w.polls && w'.polls[k] == w.polls[k]) ==> w'.polls[k].FullFinish?
  {
    hide CapturePaneOutput, DetectCliExit, RecordContextPercent, HandleIdleTransitions, CheckScreenDiff;
    hide DetectCliHealed, TouchLatest;
  }

  /** Over whole runs: whenever an exit failure, a capture failure or a heal lands for an agent, the
      last two, three or two checks of that kind of that same agent all were evidence. */
  lemma {:induction false} RunNeedsEvidence(o: Oracle, ws: seq<World>, es: seq<Event>, names: set<string>, i: nat, n: string)
    requires IsRun(o, ws, es) && i < |es| && Separate(names) && WorldGood(ws[0])
    requires PollsWithin(ws[0], names) && CountersGood(o, ws[0].m.counters, names)
    requires forall k :: 0 <= k < |es| ==> EventWithin(es[k], names)
    ensures WorldGood(ws[i + 1]) && PollsWithin(ws[i + 1], names) && CountersGood(o, ws[i + 1].m.counters, names)
    ensures LandedWithEvidence(o, ws[i].db, ws[i + 1].db, ws[i + 1].m.counters, n)
  {
    hide Step, Separate, WorldGood, PollsWithin, CountersGood, LandedWithEvidence, EventWithin;
    if i > 0 { RunNeedsEvidence(o, ws, es, names, i - 1, n); }
    StepNeedsEvidence(o, ws[i], es[i], names, n);
    StepStaysWithin(o, ws[i], es[i], names);
    StepKeepsWorld(o, ws[i], es[i]);
  }

  /** In particular a heal has behind it two successive panes that each showed no shell prompt,
      differed from the failure snapshot then stored, and carried a live signal. */
  lemma HealsHaveTwoLivePanes(o: Oracle, ws: seq<World>, es: seq<Event>, names: set<string>, i: nat, n: string)
    requires IsRun(o, ws, es) && i < |es| && Separate(names) && WorldGood(ws[0])
    requires PollsWithin(ws[0], names) && CountersGood(o, ws[0].m.counters, names)
    requires forall k :: 0 <= k < |es| ==> EventWithin(es[k], names)
    requires Grew(ws[i].db, ws[i + 1].db, CliHealed, n)
    ensures var h := History(ws[i + 1].m.counters, HealCounter, n);
            |h| >= 2 && forall j :: |h| - 2 <= j < |h| ==> Evidence(o, h[j])
  {
    RunNeedsEvidence(o, ws, es, names, i, n);
    TrailingAreEvidence(o, History(ws[i + 1].m.counters, HealCounter, n), 2);
  }

  /** With agents `x` and `shell_x`, one refused capture of `shell_x` plus one shell prompt of `x`
      already make two in a row: `x` is marked failed although only one prompt was seen. */
  lemma CollidingNamesShareEvidence(o: Oracle, db: Db, m: Monitor, x: AgentRecord, y: AgentRecord, pane: string, now: int)
    requires y.name == Key(ShellCounter, x.name) && y.name !in m.counters.consecutiveFailures
    requires x.name !in m.healedAt && ShellPrompt(o, pane)
    requires x.name in db.rows && db.rows[x.name].version == x.version
    ensures var m1 := CapturePaneOutput(db, m, y, Refused("down"), now).m;
            DetectCliExit(o, db, m1, x, pane, now).verdict == Yes &&
            History(m1.counters, ShellCounter, x.name) == History(m.counters, ShellCounter, x.name)
  {
    hide CleanCounters, CleanScreen, ApplyExtra;
    var m1 := CapturePaneOutput(db, m, y, Refused("down"), now).m;
    assert m1.healedAt == m.healedAt;
    assert CountOf(m1.counters, ShellCounter, x.name) == 1;
  }

  /** With agents `x` and `heal_x`, one refused capture of `heal_x` plus one live pane of `x` heal it. */
  lemma CollidingNamesShareHeals(o: Oracle, db: Db, m: Monitor, x: AgentRecord, y: AgentRecord, pane: string, now: int)
    requires y.name == Key(HealCounter, x.name) && y.name !in m.counters.consecutiveFailures
    requires StoredSnapshot(m, x.name).Some? && Evidence(o, HealCheck(pane, StoredSnapshot(m, x.name)))
    requires x.name in db.rows && db.rows[x.name].version == x.version
    ensures var m1 := CapturePaneOutput(db, m, y, Refused("down"), now).m;
            DetectCliHealed(o, db, m1, x, pane, now).verdict == Yes &&
            History(m1.counters, HealCounter, x.name) == History(m.counters, HealCounter, x.name)
  {
    hide ApplyExtra, Evidence;
    var m1 := CapturePaneOutput(db, m, y, Refused("down"), now).m;
    assert m1.failureSnapshot == m.failureSnapshot;
    assert CountOf(m1.counters, HealCounter, x.name) == 1;
  }

  // ── Spacing of exit failures ──

  /** No one but the healer takes `n` out of the failed state, recreates it or forgets its heal. */
  predicate OnlyHealingRevives(w: World, e: Event, n: string) {
    match e
    case Delete(name) => name != n
    case Cleanup(name) => name != n
    case Lifecycle(read, to, _) =>
      read.name == n && n in w.db.rows && w.db.rows[n].state == Failed ==> to == Failed
    case _ => true
  }

  ghost predicate OwnPolls(w: World, n: string) {
    && n in w.db.rows
    && forall id :: id in w.polls && !w.polls[id].FullFinish? && w.polls[id].agent.name == n ==>
         w.polls[id].agent.birth == w.db.rows[n].birth
  }

  /** The exit failures of `n` after the first `base` are 60 s apart, and if `n` has left the failed
      state since the last one, its heal is on record. */
  ghost predicate Spaced(db: Db, m: Monitor, now: int, n: string, base: nat, start: int) {
    && n in db.rows
    && base <= |Times(db.log, CliExit, n)|
    && var ts := Times(db.log, CliExit, n)[base..];
       |ts| > 0 ==>
         && start <= ts[0] && ts[|ts| - 1] <= now
         && ts[|ts| - 1] - ts[0] >= HEAL_GRACE_MS * (|ts| - 1)
         && (db.rows[n].state == Failed || (n in m.healedAt && m.healedAt[n] >= ts[|ts| - 1]))
  }

  /** A step of the table that adds no exit failure and does not take `n` out of the failed state. */
  lemma QuietChangeKeepsSpacing(db: Db, db': Db, m: Monitor, m': Monitor, now: int, n: string, base: nat, start: int)
    requires Spaced(db, m, now, n, base, start)
    requires n in db'.rows && Times(db'.log, CliExit, n) == Times(db.log, CliExit, n)
    requires db.rows[n].state == Failed ==> db'.rows[n].state == Failed
    requires n in m.healedAt ==> n in m'.healedAt && m'.healedAt[n] >= m.healedAt[n]
    ensures Spaced(db', m', now, n, base, start)
  {
  }

  lemma ExitKeepsSpacing(o: Oracle, db: Db, m: Monitor, a: AgentRecord, pane: string, now: int, n: string, base: nat, start: int)
    requires Spaced(db, m, now, n, base, start) && DbGood(db) && Known(db, a) && CanSuspend(a) && start <= now
    requires a.name == n ==> a.birth == db.rows[n].birth
    ensures var e := DetectCliExit(o, db, m, a, pane, now);
            Spaced(e.db, e.m, now, n, base, start)
  {
    hide DetectCliExit, Times, Consistent;
    ExitTimes(o, db, m, a, pane, now, CliExit, n);
    ExitOutcome(o, db, m, a, pane, now, n);
    var e := DetectCliExit(o, db, m, a, pane, now);
    if e.verdict == Yes && a.name == n {
      assert db.rows[n].state == a.state;
      var all, ts := Times(db.log, CliExit, n), Times(db.log, CliExit, n)[base..];
      assert Times(e.db.log, CliExit, n)[base..] == ts + [now];
    } else {
      QuietChangeKeepsSpacing(db, e.db, m, e.m, now, n, base, start);
    }
  }

  /** What an exit check does to agent `n`'s row and heal record. */
  lemma ExitOutcome(o: Oracle, db: Db, m: Monitor, a: AgentRecord, pane: string, now: int, n: string)
    requires n in db.rows && Consistent(db)
    ensures var e := DetectCliExit(o, db, m, a, pane, now);
            && n in e.db.rows
            && (e.verdict == Yes && a.name == n ==>
                  e.db.rows[n].state == Failed && !InHealGrace(m, n, now) && db.rows[n].version == a.version)
            && (e.verdict != Yes || a.name != n ==>
                  e.db.rows[n] == db.rows[n] && (n in m.healedAt ==> n in e.m.healedAt && e.m.healedAt[n] == m.healedAt[n]))
  {
    hide Noted, Dropped, Counted, ExitReason, CleanScreen, CleanCounters, ShellPrompt, ExitMessage, Writes;
  }

  lemma HealKeepsSpacing(o: Oracle, db: Db, m: Monitor, a: AgentRecord, pane: string, now: int, n: string, base: nat, start: int)
    requires Spaced(db, m, now, n, base, start)
    ensures var e := DetectCliHealed(o, db, m, a, pane, now);
            Spaced(e.db, e.m, now, n, base, start)
  {
    HealTimes(o, db, m, a, pane, now, CliExit, n);
    HealOutcome(o, db, m, a, pane, now, n);
    hide DetectCliHealed, Times;
  }

  lemma HealOutcome(o: Oracle, db: Db, m: Monitor, a: AgentRecord, pane: string, now: int, n: string)
    requires n in db.rows
    ensures var e := DetectCliHealed(o, db, m, a, pane, now);
            && n in e.db.rows
            && (e.db.rows[n].state != db.rows[n].state ==> n in e.m.healedAt && e.m.healedAt[n] == now)
            && (n in m.healedAt ==> n in e.m.healedAt && (e.m.healedAt[n] == m.healedAt[n] || e.m.healedAt[n] == now))
  {
    hide Noted, Dropped, Counted, Evidence, StoredSnapshot, ShellPrompt, Without, Key;
  }

  lemma IdleKeepsSpacing(db: Db, m: Monitor, m': Monitor, a: AgentRecord, isIdle: bool, now: int, n: string, base: nat, start: int)
    requires Spaced(db, m, now, n, base, start) && DbGood(db) && m'.healedAt == m.healedAt
    ensures Spaced(HandleIdleTransitions(db, m', a, isIdle, now), m', now, n, base, start)
  {
    IdleWriteTimes(db, m', a, isIdle, now, CliExit, n);
    IdleOutcome(db, m', a, isIdle, now, n);
    hide HandleIdleTransitions, Times;
    QuietChangeKeepsSpacing(db, HandleIdleTransitions(db, m', a, isIdle, now), m, m', now, n, base, start);
  }

  lemma IdleOutcome(db: Db, m: Monitor, a: AgentRecord, isIdle: bool, now: int, n: string)
    requires n in db.rows && Consistent(db)
    ensures var db' := HandleIdleTransitions(db, m, a, isIdle, now);
            n in db'.rows && db'.rows[n].birth == db.rows[n].birth &&
            (db.rows[n].state == Failed ==> db'.rows[n].state == Failed)
  {
    hide Writes, GraceMs, Get;
  }

  lemma ContextOutcome(o: Oracle, db: Db, m: Monitor, a: AgentRecord, pane: string, now: int, n: string)
    requires n in db.rows && Consistent(db)
    ensures var db' := RecordContextPercent(o, db, m, a, pane, now).0;
            n in db'.rows && db'.rows[n].birth == db.rows[n].birth && db'.rows[n].state == db.rows[n].state
  {
    hide Writes, GetDetection, ContextPct;
  }

  lemma TouchOutcome(db: Db, name: string, now: int, n: string)
    requires n in db.rows && Consistent(db)
    ensures var db' := TouchLatest(db, name, now);
            n in db'.rows && db'.rows[n].birth == db.rows[n].birth && db'.rows[n].state == db.rows[n].state
  {
    hide Writes;
  }

  lemma CaptureOutcome(db: Db, m: Monitor, a: AgentRecord, resp: Response, now: int, n: string)
    requires n in db.rows
    ensures var db' := CapturePaneOutput(db, m, a, resp, now).db;
            n in db'.rows && db'.rows[n].birth == db.rows[n].birth &&
            (db'.rows[n].state == db.rows[n].state || db'.rows[n].state == Failed)
  {
    hide Noted, Dropped, Counted;
  }

  lemma LivePaneKeepsSpacing(o: Oracle, db: Db, m: Monitor, a: AgentRecord, pane: string, now: int, n: string, base: nat, start: int)
    requires Spaced(db, m, now, n, base, start) && DbGood(db)
    ensures var s := AfterLivePane(o, db, m, a, pane, now);
            Spaced(s.db, s.m, now, n, base, start)
  {
    hide RecordContextPercent, CheckScreenDiff, HandleIdleTransitions, TouchLatest, Times;
    ContextTimes(o, db, m, a, pane, now, CliExit, n);
    ContextIsGood(o, db, m, a, pane, now);
    ContextFrame(o, db, m, a, pane, now);
    ContextOutcome(o, db, m, a, pane, now, n);
    var (db1, m1) := RecordContextPercent(o, db, m, a, pane, now);
    QuietChangeKeepsSpacing(db, db1, m, m1, now, n, base, start);
    DiffFrame(o, db1, m1, a, pane, now);
    var (m2, isIdle) := CheckScreenDiff(o, db1, m1, a, pane, now);
    IdleKeepsSpacing(db1, m1, m2, a, isIdle, now, n, base, start);
    var db2 := HandleIdleTransitions(db1, m2, a, isIdle, now);
    IdleTransitionIsGood(db1, m2, a, isIdle, now);
    TouchTimes(db2, a.name, now, CliExit, n);
    TouchOutcome(db2, a.name, now, n);
    QuietChangeKeepsSpacing(db2, TouchLatest(db2, a.name, now), m2, m2, now, n, base, start);
  }

  lemma PaneKeepsSpacing(w: World, a: AgentRecord, resp: Response, n: string, base: nat, start: int)
    requires WorldGood(w) && Spaced(w.db, w.m, w.now, n, base, start) && Known(w.db, a) && CanSuspend(a)
    ensures var c := CapturePaneOutput(w.db, w.m, a, resp, w.now);
            Spaced(c.db, c.m, w.now, n, base, start) && DbGood(c.db)
  {
    hide CapturePaneOutput, Times;
    var c := CapturePaneOutput(w.db, w.m, a, resp, w.now);
    CaptureTimes(w.db, w.m, a, resp, w.now, CliExit, n);
    CaptureIsGood(w.db, w.m, a, resp, w.now);
    CaptureFrame(w.db, w.m, a, resp, w.now);
    CaptureOutcome(w.db, w.m, a, resp, w.now, n);
    QuietChangeKeepsSpacing(w.db, c.db, w.m, c.m, w.now, n, base, start);
  }

  lemma CaptureKeepsSpacing(o: Oracle, w: World, id: nat, resp: Response, n: string, base: nat, start: int)
    requires WorldGood(w) && OwnPolls(w, n) && Spaced(w.db, w.m, w.now, n, base, start) && start <= w.now
    requires id in w.polls
    ensures var w' := Step(o, w, ResumeCapture(id, resp));
            Spaced(w'.db, w'.m, w.now, n, base, start)
  {
    hide CapturePaneOutput, DetectCliExit, DetectCliHealed, AfterLivePane, CheckScreenDiff, HandleIdleTransitions, Spaced;
    assert PollGood(w.db, w.polls[id]);
    match w.polls[id]
    case FastCapture(a) =>
      var c := CapturePaneOutput(w.db, w.m, a, resp, w.now);
      PaneKeepsSpacing(w, a, resp, n, base, start);
      if c.outcome.Pane? {
        DiffFrame(o, c.db, c.m, a, c.outcome.text, w.now);
        var (m1, isIdle) := CheckScreenDiff(o, c.db, c.m, a, c.outcome.text, w.now);
        IdleKeepsSpacing(c.db, c.m, m1, a, isIdle, w.now, n, base, start);
      }
    case FullCapture(a) =>
      var c := CapturePaneOutput(w.db, w.m, a, resp, w.now);
      PaneKeepsSpacing(w, a, resp, n, base, start);
      CaptureFrame(w.db, w.m, a, resp, w.now);
      if c.outcome.Pane? {
        ExitKeepsSpacing(o, c.db, c.m, a, c.outcome.text, w.now, n, base, start);
        CliExitIsGood(o, c.db, c.m, a, c.outcome.text, w.now);
        var e := DetectCliExit(o, c.db, c.m, a, c.outcome.text, w.now);
        LivePaneKeepsSpacing(o, e.db, e.m, a, c.outcome.text, w.now, n, base, start);
      }
    case FailedCapture(a) =>
      if resp.Answered? { HealKeepsSpacing(o, w.db, w.m, a, resp.data, w.now, n, base, start); }
    case _ =>
  }

  lemma SameHealsKeepSpacing(db: Db, m: Monitor, m': Monitor, now: int, n: string, base: nat, start: int)
    requires Spaced(db, m, now, n, base, start) && m'.healedAt == m.healedAt
    ensures Spaced(db, m', now, n, base, start)
  {
    hide Times;
  }

  lemma ActivityKeepsSpacing(o: Oracle, w: World, id: nat, act: Activity, n: string, base: nat, start: int)
    requires WorldGood(w) && Spaced(w.db, w.m, w.now, n, base, start) && id in w.polls
    ensures var w' := Step(o, w, ResumeActivity(id, act));
            Spaced(w'.db, w'.m, w.now, n, base, start)
  {
    hide AfterFastCapture, AfterFullCapture, AfterFailedCapture, BeginFull, TouchLatest, CleanupAgent, Write;
    hide HandleIdleTransitions, GetDetection, NoteActivity, Times, Spaced, DbGood, PollGood;
    match w.polls[id]
    case FastActivity(a) =>
      DetectionFrame(o, w.db, w.m, a.engine);
      var (m1, d) := GetDetection(o, w.db, w.m, a.engine);
      ActivityFrame(m1, a.name, act, d.Some?);
      var m2 := NoteActivity(m1, a.name, act, d.Some?).0;
      SameHealsKeepSpacing(w.db, w.m, m2, w.now, n, base, start);
      IdleKeepsSpacing(w.db, w.m, m2, a, true, w.now, n, base, start);
    case FullActivity(a, p) =>
      ActivityFrame(w.m, a.name, act, p);
      var m2 := NoteActivity(w.m, a.name, act, p).0;
      SameHealsKeepSpacing(w.db, w.m, m2, w.now, n, base, start);
      IdleKeepsSpacing(w.db, w.m, m2, a, true, w.now, n, base, start);
    case _ =>
  }

  /** Steps outside the polls do not take `n` out of the failed state unless they revive it. */
  lemma WriteRow(db: Db, actor: Actor, read: AgentRecord, to: AgentState, extra: Extra, now: int, n: string)
    requires n in db.rows
    ensures var db' := Write(db, actor, read, to, extra, now).db;
            && n in db'.rows && db'.rows[n].birth == db.rows[n].birth
            && (db'.rows[n].state == db.rows[n].state || (n == read.name && db'.rows[n].state == to))
  {
    hide Writes;
  }

  /** The row of `n` is the same agent, and failed only if it stays so. */
  ghost predicate StaysFailed(db: Db, db': Db, n: string) {
    n in db.rows && n in db'.rows && db'.rows[n].birth == db.rows[n].birth
    && (db.rows[n].state == Failed ==> db'.rows[n].state == Failed)
  }

  lemma ActorRows(o: Oracle, w: World, e: Event, n: string)
    requires Consistent(w.db) && n in w.db.rows && OnlyHealingRevives(w, e, n)
    requires e.DeliveryDone? || e.SweepProxy? || e.ProxyUnavailable? || e.Lifecycle?
    ensures StaysFailed(w.db, Step(o, w, e).db, n)
  {
    hide Writes, Write, ApplyExtra;
    assert forall k :: k in w.db.rows ==> w.db.rows[k].name == k;
    hide Consistent;
    match e
    case DeliveryDone(name) =>
      if name in w.db.rows { WriteRow(w.db, Delivery, w.db.rows[name], Active, Touch(w.now), w.now, n); }
    case SweepProxy(name, _) =>
      if name in w.db.rows {
        WriteRow(w.db, ProxySweep, w.db.rows[name], Failed, Failure(w.now, "Proxy disconnected"), w.now, n);
      }
    case ProxyUnavailable(name, reason) =>
      if name in w.db.rows { WriteRow(w.db, Background, w.db.rows[name], Failed, Failure(w.now, reason), w.now, n); }
    case Lifecycle(read, to, extra) => WriteRow(w.db, Outside, read, to, extra, w.now, n);
  }

  lemma PollRows(o: Oracle, w: World, e: Event, n: string)
    requires Consistent(w.db) && n in w.db.rows
    requires e.Tick? || e.StartFast? || e.StartFull? || e.StartFailed? || e.ResumeFinish? || e.Cleanup?
    ensures StaysFailed(w.db, Step(o, w, e).db, n)
  {
    hide TouchLatest, BeginFull, BeginFailed, Writes, CleanupAgent, Write, Consistent;
    match e
    case StartFull(_, name) => BeginLeavesTable(o, w.db, w.m, name);
    case StartFailed(_, name) => BeginLeavesTable(o, w.db, w.m, name);
    case ResumeFinish(id) =>
      if id in w.polls && w.polls[id].FullFinish? { TouchOutcome(w.db, w.polls[id].name, w.now, n); }
    case _ =>
  }

  lemma TableRows(o: Oracle, w: World, e: Event, n: string)
    requires n in w.db.rows && OnlyHealingRevives(w, e, n)
    requires e.Reconfigure? || e.Configure? || e.Create? || e.Delete?
    ensures StaysFailed(w.db, Step(o, w, e).db, n)
  {
    hide Writes, Write;
  }

  lemma OutsideRows(o: Oracle, w: World, e: Event, n: string)
    requires WorldGood(w) && n in w.db.rows && OnlyHealingRevives(w, e, n) && !e.ResumeActivity? && !e.ResumeCapture?
    ensures StaysFailed(w.db, Step(o, w, e).db, n)
  {
    hide Step, OnlyHealingRevives, StaysFailed;
    assert Consistent(w.db) by { GoodIsConsistent(w); }
    if e.DeliveryDone? || e.SweepProxy? || e.ProxyUnavailable? || e.Lifecycle? {
      ActorRows(o, w, e, n);
    } else if e.Reconfigure? || e.Configure? || e.Create? || e.Delete? {
      TableRows(o, w, e, n);
    } else {
      PollRows(o, w, e, n);
    }
  }

  lemma GoodIsConsistent(w: World)
    requires WorldGood(w)
    ensures Consistent(w.db)
  {
  }

  lemma OutsideOutcome(o: Oracle, w: World, e: Event, n: string)
    requires WorldGood(w) && n in w.db.rows && OnlyHealingRevives(w, e, n) && !e.ResumeActivity? && !e.ResumeCapture?
    ensures var w' := Step(o, w, e);
            && n in w'.db.rows && w'.db.rows[n].birth == w.db.rows[n].birth
            && (w.db.rows[n].state == Failed ==> w'.db.rows[n].state == Failed)
            && w'.now >= w.now
            && (n in w.m.healedAt ==> n in w'.m.healedAt && w'.m.healedAt[n] == w.m.healedAt[n])
  {
    OutsideRows(o, w, e, n);
    TimeMovesOn(o, w, e);
    if e.Cleanup? {
      hide CleanCounters, CleanScreen;
    } else {
      OtherStepFrame(o, w, e);
      hide Step;
    }
  }

  lemma StepKeepsSpacing(o: Oracle, w: World, e: Event, n: string, base: nat, start: int)
    requires WorldGood(w) && OwnPolls(w, n) && Spaced(w.db, w.m, w.now, n, base, start) && start <= w.now
    requires OnlyHealingRevives(w, e, n)
    ensures var w' := Step(o, w, e); Spaced(w'.db, w'.m, w'.now, n, base, start)
  {
    hide AfterFastCapture, AfterFullCapture, AfterFailedCapture, AfterFastActivity, AfterFullActivity, Times;
    match e
    case ResumeCapture(id, resp) => if id in w.polls { CaptureKeepsSpacing(o, w, id, resp, n, base, start); }
    case ResumeActivity(id, act) => if id in w.polls { ActivityKeepsSpacing(o, w, id, act, n, base, start); }
    case _ =>
      OutsideTimes(o, w, e, CliExit, n);
      OutsideOutcome(o, w, e, n);
      hide Step;
      QuietChangeKeepsSpacing(w.db, Step(o, w, e).db, w.m, Step(o, w, e).m, w.now, n, base, start);
  }

  lemma StepKeepsOwnPolls(o: Oracle, w: World, e: Event, n: string)
    requires WorldGood(w) && OwnPolls(w, n) && OnlyHealingRevives(w, e, n)
    ensures OwnPolls(Step(o, w, e), n)
  {
    var w' := Step(o, w, e);
    StepKeepsBirth(o, w, e, n);
    if e.ResumeCapture? {
      SuspendedPollIsFull(o, w, e.id, e.resp);
      hide Step;
    } else {
      hide HandleIdleTransitions, GetDetection, NoteActivity, Write, TouchLatest, CleanupAgent;
    }
  }

  lemma LivePaneOutcome(o: Oracle, db: Db, m: Monitor, a: AgentRecord, pane: string, now: int, n: string)
    requires n in db.rows && DbGood(db)
    ensures var db' := AfterLivePane(o, db, m, a, pane, now).db;
            n in db'.rows && db'.rows[n].birth == db.rows[n].birth
  {
    hide RecordContextPercent, CheckScreenDiff, HandleIdleTransitions, TouchLatest;
    ContextOutcome(o, db, m, a, pane, now, n);
    ContextIsGood(o, db, m, a, pane, now);
    var (db1, m1) := RecordContextPercent(o, db, m, a, pane, now);
    var (m2, isIdle) := CheckScreenDiff(o, db1, m1, a, pane, now);
    IdleOutcome(db1, m2, a, isIdle, now, n);
    IdleTransitionIsGood(db1, m2, a, isIdle, now);
    TouchOutcome(HandleIdleTransitions(db1, m2, a, isIdle, now), a.name, now, n);
  }

  lemma DetectKeepsBirth(o: Oracle, db: Db, m: Monitor, a: AgentRecord, pane: string, now: int, n: string)
    requires n in db.rows
    ensures var e := DetectCliExit(o, db, m, a, pane, now); n in e.db.rows && e.db.rows[n].birth == db.rows[n].birth
    ensures var h := DetectCliHealed(o, db, m, a, pane, now); n in h.db.rows && h.db.rows[n].birth == db.rows[n].birth
  {
    hide Noted, Dropped, Counted, Evidence, ExitReason, CleanupAgent, InHealGrace, RejectHeal, ShellPrompt;
  }

  lemma CaptureKeepsBirth(o: Oracle, w: World, id: nat, resp: Response, n: string)
    requires WorldGood(w) && n in w.db.rows && id in w.polls
    ensures var db' := Step(o, w, ResumeCapture(id, resp)).db;
            n in db'.rows && db'.rows[n].birth == w.db.rows[n].birth
  {
    hide AfterFastActivity, AfterFullActivity, AfterFastCapture, AfterFullCapture, BeginFull, TouchLatest, Write, DetectCliHealed;
    hide DbGood, Known;
    assert PollGood(w.db, w.polls[id]);
    match w.polls[id]
    case FastCapture(a) => FastKeepsBirth(o, w.db, w.m, a, resp, w.now, n);
    case FullCapture(a) => FullKeepsBirth(o, w.db, w.m, a, resp, w.now, n);
    case FailedCapture(a) =>
      if resp.Answered? { DetectKeepsBirth(o, w.db, w.m, a, resp.data, w.now, n); }
    case _ =>
  }

  lemma FastKeepsBirth(o: Oracle, db: Db, m: Monitor, a: AgentRecord, resp: Response, now: int, n: string)
    requires DbGood(db) && Known(db, a) && CanSuspend(a) && n in db.rows
    ensures var s := AfterFastCapture(o, db, m, a, resp, now); n in s.db.rows && s.db.rows[n].birth == db.rows[n].birth
  {
    hide CapturePaneOutput, CheckScreenDiff, HandleIdleTransitions, Disciplined, Writes;
    var c := CapturePaneOutput(db, m, a, resp, now);
    CaptureOutcome(db, m, a, resp, now, n);
    CaptureIsGood(db, m, a, resp, now);
    if c.outcome.Pane? {
      var (m1, isIdle) := CheckScreenDiff(o, c.db, c.m, a, c.outcome.text, now);
      IdleOutcome(c.db, m1, a, isIdle, now, n);
    }
  }

  lemma FullKeepsBirth(o: Oracle, db: Db, m: Monitor, a: AgentRecord, resp: Response, now: int, n: string)
    requires DbGood(db) && Known(db, a) && CanSuspend(a) && n in db.rows
    ensures var s := AfterFullCapture(o, db, m, a, resp, now); n in s.db.rows && s.db.rows[n].birth == db.rows[n].birth
  {
    hide CapturePaneOutput, DetectCliExit, AfterLivePane, Disciplined, Writes;
    var c := CapturePaneOutput(db, m, a, resp, now);
    CaptureOutcome(db, m, a, resp, now, n);
    CaptureIsGood(db, m, a, resp, now);
    if c.outcome.Pane? {
      KnownStays(db, c.db, a);
      DetectKeepsBirth(o, c.db, c.m, a, c.outcome.text, now, n);
      CliExitIsGood(o, c.db, c.m, a, c.outcome.text, now);
      var e := DetectCliExit(o, c.db, c.m, a, c.outcome.text, now);
      LivePaneOutcome(o, e.db, e.m, a, c.outcome.text, now, n);
    }
  }

  lemma KnownStays(db: Db, later: Db, a: AgentRecord)
    requires Remembers(db, later) && Known(db, a)
    ensures Known(later, a)
  {
  }

  lemma StepKeepsBirth(o: Oracle, w: World, e: Event, n: string)
    requires WorldGood(w) && n in w.db.rows && OnlyHealingRevives(w, e, n)
    ensures var db' := Step(o, w, e).db; n in db'.rows && db'.rows[n].birth == w.db.rows[n].birth
  {
    hide AfterFastCapture, AfterFullCapture, AfterFailedCapture, HandleIdleTransitions, GetDetection, NoteActivity;
    match e
    case ResumeCapture(id, resp) => if id in w.polls { CaptureKeepsBirth(o, w, id, resp, n); }
    case ResumeActivity(id, act) =>
      if id in w.polls {
        match w.polls[id]
        case FastActivity(a) =>
          var (m1, d) := GetDetection(o, w.db, w.m, a.engine);
          IdleOutcome(w.db, NoteActivity(m1, a.name, act, d.Some?).0, a, true, w.now, n);
        case FullActivity(a, p) => IdleOutcome(w.db, NoteActivity(w.m, a.name, act, p).0, a, true, w.now, n);
        case _ =>
      }
    case _ =>
      OutsideOutcome(o, w, e, n);
      hide Step;
  }

  lemma {:induction false} RunKeepsSpacing(o: Oracle, ws: seq<World>, es: seq<Event>, n: string, i: nat)
    requires IsRun(o, ws, es) && WorldGood(ws[0]) && OwnPolls(ws[0], n) && i < |ws|
    requires forall k :: 0 <= k < |es| ==> OnlyHealingRevives(ws[k], es[k], n)
    ensures WorldGood(ws[i]) && OwnPolls(ws[i], n) && ws[0].now <= ws[i].now
    ensures Spaced(ws[i].db, ws[i].m, ws[i].now, n, |Times(ws[0].db.log, CliExit, n)|, ws[0].now)
  {
    if i > 0 {
      RunKeepsSpacing(o, ws, es, n, i - 1);
      StepKeepsWorld(o, ws[i - 1], es[i - 1]);
      StepKeepsOwnPolls(o, ws[i - 1], es[i - 1], n);
      StepKeepsSpacing(o, ws[i - 1], es[i - 1], n, |Times(ws[0].db.log, CliExit, n)|, ws[0].now);
      TimeMovesOn(o, ws[i - 1], es[i - 1]);
      hide Step, WorldGood, OwnPolls, Spaced, Times, OnlyHealingRevives;
    }
  }

  lemma TimeMovesOn(o: Oracle, w: World, e: Event)
    ensures Step(o, w, e).now >= w.now
  {
    hide AfterFastCapture, AfterFullCapture, AfterFailedCapture, AfterFastActivity, AfterFullActivity, Write, BeginFull;
  }

  /** If healing is the only way back from failed, a run of T ms holds at most T / 60000 + 1 exit
      failures of an agent, whatever else is interleaved. */
  lemma ExitFailuresAreBounded(o: Oracle, ws: seq<World>, es: seq<Event>, n: string)
    requires IsRun(o, ws, es) && WorldGood(ws[0]) && OwnPolls(ws[0], n)
    requires forall k :: 0 <= k < |es| ==> OnlyHealingRevives(ws[k], es[k], n)
    ensures var exits := |Times(ws[|es|].db.log, CliExit, n)| - |Times(ws[0].db.log, CliExit, n)|;
            0 <= exits <= (ws[|es|].now - ws[0].now) / 60000 + 1
  {
    RunKeepsSpacing(o, ws, es, n, |es|);
    hide Step, WorldGood, OwnPolls, OnlyHealingRevives;
    var ts := Times(ws[|es|].db.log, CliExit, n)[|Times(ws[0].db.log, CliExit, n)|..];
    if |ts| > 0 { assert HEAL_GRACE_MS * (|ts| - 1) <= ws[|es|].now - ws[0].now; }
  }
}
