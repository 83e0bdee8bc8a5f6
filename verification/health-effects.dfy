/** What each stretch of the monitor does to the row, the counters and the maps, stated outright. */
module HealthEffects {
  import opened Options
  import opened AgentsTable
  import opened HealthSpec
  import opened HealthRuns
  import opened HealthProperties

  /** One write landed on the row of this name, and nothing else changed. */
  ghost predicate Lands(db: Db, db': Db, name: string, actor: Actor, read: AgentRecord, to: AgentState, extra: Extra, now: int)
    requires name in db.rows
  {
    && db'.rows == db.rows[name := RowAfter(db.rows[name], to, extra)]
    && db'.log == db.log + [Landed(actor, read, db.rows[name].birth, db.rows[name].state, to, now)]
    && db'.detection == db.detection && db'.births == db.births
  }

  /** The configured grace after activity, or ten seconds. */
  function Grace(m: Monitor, engine: string): int {
    if engine in m.compiled && m.compiled[engine].config.activeGraceMs.Some?
    then m.compiled[engine].config.activeGraceMs.value else 10000
  }

  /** The row of an idle record wakes up on a verdict that is not idle, if it is idle still. */
  predicate Wakes(db: Db, agent: AgentRecord, isIdle: bool) {
    agent.state == Idle && !isIdle && agent.name in db.rows && db.rows[agent.name].state == Idle
  }

  /** The row of an active record goes idle on an idle verdict, if it is active still and no activity was
      detected within the grace period. */
  predicate FallsAsleep(db: Db, m: Monitor, agent: AgentRecord, isIdle: bool, now: int) {
    && agent.state == Active && isIdle && agent.name in db.rows && db.rows[agent.name].state == Active
    && now - (if agent.name in m.screen.lastActivityDetected then m.screen.lastActivityDetected[agent.name] else 0)
       >= Grace(m, agent.engine)
  }

  lemma TransitionOutcome(db: Db, m: Monitor, agent: AgentRecord, isIdle: bool, now: int)
    requires agent.name in db.rows ==> db.rows[agent.name].name == agent.name
    ensures var db' := HandleIdleTransitions(db, m, agent, isIdle, now);
            if Wakes(db, agent, isIdle) then
              Lands(db, db', agent.name, ActivityDetected, db.rows[agent.name], Active, Touch(now), now)
            else if FallsAsleep(db, m, agent, isIdle, now) then
              Lands(db, db', agent.name, IdleDetected, db.rows[agent.name], Idle, Touch(now), now)
            else db' == db
  {
    hide Write;
    if agent.name in db.rows {
      WriteOutcome(db, ActivityDetected, db.rows[agent.name], Active, Touch(now), now);
      WriteOutcome(db, IdleDetected, db.rows[agent.name], Idle, Touch(now), now);
    }
  }

  // ── refusals ──

  /** A third refusal in a row of a current record marks the agent failed, with time and reason; any
      other refusal only counts, and an answer forgets the count. */
  lemma CaptureEffect(db: Db, m: Monitor, a: AgentRecord, resp: Response, now: int)
    ensures var c := CapturePaneOutput(db, m, a, resp, now);
            var count := if a.name in m.counters.consecutiveFailures then m.counters.consecutiveFailures[a.name] else 0;
            var current := a.name in db.rows && db.rows[a.name].version == a.version;
            match resp {
              case Answered(data) =>
                c.db == db && c.outcome == Pane(data) && a.name !in c.m.counters.consecutiveFailures
              case Refused(error) =>
                if count >= 2 && current then
                  c.outcome == NoPane && a.name !in c.m.counters.consecutiveFailures
                  && Lands(db, c.db, a.name, CaptureFailed, a, Failed, Failure(now, error), now)
                else
                  c.db == db && c.outcome == (if count >= 2 then Threw else NoPane)
                  && a.name in c.m.counters.consecutiveFailures && c.m.counters.consecutiveFailures[a.name] == count + 1
            }
  {
    if resp.Refused? { WriteOutcome(db, CaptureFailed, a, Failed, Failure(now, resp.error), now); }
    hide Write;
  }

  // ── exit and heal ──

  /** A shell sign outside the heal grace: the first is counted, the second of a current record marks
      the agent failed, with time and reason, and forgets the screen. Anything else drops the count. */
  lemma ExitEffect(o: Oracle, db: Db, m: Monitor, a: AgentRecord, pane: string, now: int)
    ensures var e := DetectCliExit(o, db, m, a, pane, now);
            var count := CountOf(m.counters, ShellCounter, a.name);
            var healing := a.name in m.healedAt && now - m.healedAt[a.name] < 60000;
            var current := a.name in db.rows && db.rows[a.name].version == a.version;
            if healing || !(o.shellPrompt(pane) || o.exitMessage(pane)) then
              e.verdict == No && e.db == db && CountOf(e.m.counters, ShellCounter, a.name) == 0
            else if count == 0 then
              e.verdict == No && e.db == db && CountOf(e.m.counters, ShellCounter, a.name) == 1
            else if current then
              e.verdict == Yes && Lands(db, e.db, a.name, CliExit, a, Failed, Failure(now, o.exitReason(pane)), now)
              && a.name !in e.m.screen.lastPaneSnapshot && a.name !in e.m.healedAt && a.name !in e.m.lastActivityTs
              && (forall c: Counter :: CountOf(e.m.counters, c, a.name) == 0)
            else e.verdict == Conflict && e.db == db
  {
    ExitCount(o, db, m, a, pane, now);
    WriteOutcome(db, CliExit, a, Failed, Failure(now, ExitReason(o, pane)), now);
    hide Write, Noted;
  }

  lemma ExitCount(o: Oracle, db: Db, m: Monitor, a: AgentRecord, pane: string, now: int)
    ensures CountOf(Noted(m.counters, ShellCounter, a.name, ShellCheck(pane, InHealGrace(m, a.name, now))), ShellCounter, a.name)
         == CountOf(m.counters, ShellCounter, a.name)
  {
  }

  /** A second live pane in a row, unlike the stored snapshot, of a current record makes the agent active
      again, clears the failure and notes the time of the heal. */
  lemma HealEffect(o: Oracle, db: Db, m: Monitor, a: AgentRecord, pane: string, now: int)
    requires a.name in m.failureSnapshot
    ensures var e := DetectCliHealed(o, db, m, a, pane, now);
            var count := CountOf(m.counters, HealCounter, a.name);
            var current := a.name in db.rows && db.rows[a.name].version == a.version;
            if o.shellPrompt(pane) || pane == m.failureSnapshot[a.name] || !o.alive(pane) then
              e.verdict == No && e.db == db && CountOf(e.m.counters, HealCounter, a.name) == 0
            else if count == 0 then
              e.verdict == No && e.db == db && CountOf(e.m.counters, HealCounter, a.name) == 1
            else
              && e.verdict == (if current then Yes else Conflict)
              && a.name !in e.m.failureSnapshot && a.name in e.m.healedAt && e.m.healedAt[a.name] == now
              && (if current then Lands(db, e.db, a.name, CliHealed, a, Active, ClearFailure, now) else e.db == db)
  {
    WriteOutcome(db, CliHealed, a, Active, ClearFailure, now);
    hide Write, Noted;
    OneHeal(o, db, m, a, pane, now);
  }

  lemma OneHeal(o: Oracle, db: Db, m: Monitor, a: AgentRecord, pane: string, now: int)
    ensures CountOf(Noted(m.counters, HealCounter, a.name, HealCheck(pane, StoredSnapshot(m, a.name))), HealCounter, a.name)
         == CountOf(m.counters, HealCounter, a.name)
  {
  }

  /** The first pane of a failed agent without a snapshot becomes its snapshot, unless it shows a prompt. */
  lemma FirstPaneIsBaseline(o: Oracle, db: Db, m: Monitor, a: AgentRecord, pane: string, now: int)
    requires a.name !in m.failureSnapshot
    ensures var e := DetectCliHealed(o, db, m, a, pane, now);
            && e.verdict == No && e.db == db && CountOf(e.m.counters, HealCounter, a.name) == 0
            && StoredSnapshot(e.m, a.name) == if o.shellPrompt(pane) then None else Some(pane)
  {
  }

  // ── context, touch, activity ──

  lemma ContextEffect(o: Oracle, db: Db, m: Monitor, a: AgentRecord, pane: string, now: int)
    requires a.name in db.rows ==> db.rows[a.name].name == a.name
    ensures var db' := RecordContextPercent(o, db, m, a, pane, now).0;
            var pct := o.contextPct(GetDetection(o, db, m, a.engine).1, a.engine, pane);
            if pct.Some? && a.name in db.rows && (db.rows[a.name].state == Active || db.rows[a.name].state == Idle) then
              Lands(db, db', a.name, ContextRead, db.rows[a.name], db.rows[a.name].state, Context(pct.value, now), now)
            else db' == db
  {
    hide GetDetection, Write;
    var pct := o.contextPct(GetDetection(o, db, m, a.engine).1, a.engine, pane);
    if pct.Some? && a.name in db.rows {
      WriteOutcome(db, ContextRead, db.rows[a.name], db.rows[a.name].state, Context(pct.value, now), now);
    }
  }

  lemma TouchEffect(db: Db, name: string, now: int)
    requires name in db.rows ==> db.rows[name].name == name
    ensures var db' := TouchLatest(db, name, now);
            if name in db.rows then Lands(db, db', name, PollDone, db.rows[name], db.rows[name].state, Touch(now), now) else db' == db
  {
    hide Write;
    if name in db.rows {
      WriteOutcome(db, PollDone, db.rows[name], db.rows[name].state, Touch(now), now);
    }
  }

  /** The activity time is noted; it settles a poll only if it has not moved and no patterns apply. */
  lemma ActivityEffect(m: Monitor, name: string, act: Activity, hasPatterns: bool)
    ensures var (m', still) := NoteActivity(m, name, act, hasPatterns);
            match act {
              case Unavailable => m' == m && !still
              case At(ts) =>
                name in m'.lastActivityTs && m'.lastActivityTs[name] == ts
                && (still <==> name in m.lastActivityTs && m.lastActivityTs[name] == ts && !hasPatterns)
            }
  {
  }

  // ── detection cache ──

  /** Every cached entry is what its text parses to. */
  ghost predicate Coherent(o: Oracle, m: Monitor) {
    forall e :: e in m.compiled ==> m.compiled[e].json != "" && o.parse(m.compiled[e].json) == Some(m.compiled[e].config)
  }

  /** With a coherent cache the answer is a fresh parse of what is configured, and the cache stays so. */
  lemma DetectionIsFresh(o: Oracle, db: Db, m: Monitor, engine: string)
    requires Coherent(o, m)
    ensures var (m', d) := GetDetection(o, db, m, engine);
            && Coherent(o, m')
            && (if engine in db.detection && db.detection[engine] != "" && o.parse(db.detection[engine]).Some? then
                  d == Some(Compiled(db.detection[engine], o.parse(db.detection[engine]).value))
                  && m' == m.(compiled := m.compiled[engine := d.value])
                else if engine in db.detection && db.detection[engine] != "" then d.None? && m' == m
                else d.None? && m' == m.(compiled := m.compiled - {engine}))
  {
  }

  // ── the screen diff ──

  /** A capture that is not quiet: an active pattern, or no idle pattern and a snapshot that moved or is the first. */
  predicate Noisy(s: Screen, name: string, c: Capture) {
    c.active || (!c.idle && (name !in s.lastPaneSnapshot || s.lastPaneSnapshot[name] != c.snapshot))
  }

  /** The snapshot is kept. A noisy capture starts counting again, and unless it is a first one notes the
      time of the activity; a quiet one is counted. */
  lemma DiffEffect(s: Screen, name: string, c: Capture, threshold: int, now: int)
    ensures var (s', isIdle) := DiffCapture(s, name, c, threshold, now);
            && s'.lastPaneSnapshot == s.lastPaneSnapshot[name := c.snapshot]
            && name in s'.unchangedCount
            && (if Noisy(s, name, c) then
                  !isIdle && s'.unchangedCount[name] == 0
                  && s'.lastActivityDetected ==
                       (if c.active || name in s.lastPaneSnapshot then s.lastActivityDetected[name := now] else s.lastActivityDetected)
                else
                  s'.unchangedCount[name] == (if name in s.unchangedCount then s.unchangedCount[name] else 0) + 1
                  && (isIdle <==> s'.unchangedCount[name] >= threshold)
                  && s'.lastActivityDetected == s.lastActivityDetected)
  {
  }

  // ── whole stretches ──

  /** The configured detection, parsed afresh. */
  function Fresh(o: Oracle, db: Db, engine: string): Option<Compiled> {
    if engine in db.detection && db.detection[engine] != "" && o.parse(db.detection[engine]).Some?
    then Some(Compiled(db.detection[engine], o.parse(db.detection[engine]).value)) else None
  }

  /** One of the patterns matches the trailing lines it asks for. */
  predicate Shows(o: Oracle, patterns: seq<Pattern>, pane: string) {
    exists i :: 0 <= i < |patterns| && o.test(patterns[i].re, o.tail(pane, patterns[i].lines))
  }

  /** What the screen diff sees of a pane: 30 lines of it unless configured, and which lists match. */
  function Seen(o: Oracle, d: Option<Compiled>, pane: string): Capture {
    if d.None? then Capture(o.snapshot(pane, 30), false, false)
    else
      var config := d.value.config;
      Capture(o.snapshot(pane, if config.snapshotLines.Some? then config.snapshotLines.value else 30),
              Shows(o, config.activePatterns, pane), Shows(o, config.idlePatterns, pane))
  }

  /** Quiet, and for at least as many captures as configured, or two. */
  predicate Idles(o: Oracle, db: Db, m: Monitor, agent: AgentRecord, pane: string) {
    var d := Fresh(o, db, agent.engine);
    var quiet := if agent.name in m.screen.unchangedCount then m.screen.unchangedCount[agent.name] else 0;
    !Noisy(m.screen, agent.name, Seen(o, d, pane)) &&
    quiet + 1 >= if d.Some? && d.value.config.idleThreshold.Some? then d.value.config.idleThreshold.value else 2
  }

  lemma SeenIsObserved(o: Oracle, d: Option<Compiled>, pane: string)
    ensures Observe(o, d, pane) == Seen(o, d, pane)
  {
    if d.Some? {
      var a, b := d.value.config.activePatterns, d.value.config.idlePatterns;
      assert forall i :: 0 <= i < |a| ==> (Matches(o, a[i], pane) <==> o.test(a[i].re, o.tail(pane, a[i].lines)));
      assert forall i :: 0 <= i < |b| ==> (Matches(o, b[i], pane) <==> o.test(b[i].re, o.tail(pane, b[i].lines)));
    }
  }

  /** The verdict of the screen diff. An idle verdict leaves the time of the last activity. */
  lemma CheckEffect(o: Oracle, db: Db, m: Monitor, agent: AgentRecord, pane: string, now: int)
    requires Coherent(o, m)
    ensures var (m', isIdle) := CheckScreenDiff(o, db, m, agent, pane, now);
            && (isIdle <==> Idles(o, db, m, agent, pane)) && Coherent(o, m')
            && (isIdle ==> m'.screen.lastActivityDetected == m.screen.lastActivityDetected)
  {
    hide GetDetection, DiffCapture, Observe, Seen, Noisy;
    DetectionIsFresh(o, db, m, agent.engine);
    DetectionFrame(o, db, m, agent.engine);
    var d := GetDetection(o, db, m, agent.engine).1;
    SeenIsObserved(o, d, pane);
    DiffEffect(m.screen, agent.name, Observe(o, d, pane), Threshold(d), now);
  }

  /** The writes of a stretch concern one row; this is what its state and activity time come to. */
  ghost predicate RowBecomes(db: Db, db': Db, name: string, state: AgentState, at: Option<int>) {
    && name in db.rows && name in db'.rows && db'.detection == db.detection
    && db'.rows[name].name == db.rows[name].name && db'.rows[name].state == state
    && (at.Some? ==> db'.rows[name].lastActivity == at)
    && forall n :: n != name ==> (n in db'.rows <==> n in db.rows) && (n in db.rows ==> db'.rows[n] == db.rows[n])
  }

  /** How often a transition of this kind has landed for the agent. */
  function Landings(db: Db, actor: Actor, name: string): nat {
    |Times(db.log, actor, name)|
  }

  lemma LandsOnce(db: Db, db': Db, name: string, actor: Actor, read: AgentRecord, to: AgentState, extra: Extra, now: int, other: Actor)
    requires name in db.rows && read.name == name && Lands(db, db', name, actor, read, to, extra, now)
    ensures Landings(db', other, name) == Landings(db, other, name) + if other == actor then 1 else 0
  {
    TimesAppend(db.log, Landed(actor, read, db.rows[name].birth, db.rows[name].state, to, now), other, name);
  }

  /**
   * A full poll that sees a live CLI. An idle agent whose capture is not idle is active afterwards; an
   * active one whose capture is idle goes idle once the grace has passed; any other state stays. Unless
   * the verdict is idle, which leaves the closing stretch to come, the activity time is now.
   */
  lemma LivePaneEffect(o: Oracle, db: Db, m: Monitor, a: AgentRecord, pane: string, now: int)
    requires Coherent(o, m) && a.name in db.rows && db.rows[a.name].name == a.name
    ensures var s := AfterLivePane(o, db, m, a, pane, now);
            var idle := Idles(o, db, m, a, pane);
            var row := db.rows[a.name];
            var wakes := a.state == Idle && !idle && row.state == Idle;
            var sleeps := FallsAsleep(db, m.(compiled := s.m.compiled), a, idle, now);
            && RowBecomes(db, s.db, a.name, if wakes then Active else if sleeps then Idle else row.state, if idle then None else Some(now))
            && s.next == (if idle then Some(FullFinish(a.name)) else None)
            && Landings(s.db, ActivityDetected, a.name) == Landings(db, ActivityDetected, a.name) + (if wakes then 1 else 0)
            && Landings(s.db, IdleDetected, a.name) == Landings(db, IdleDetected, a.name) + (if sleeps then 1 else 0)
  {
    hide RecordContextPercent, CheckScreenDiff, HandleIdleTransitions, TouchLatest, Idles, Times;
    ContextPart(o, db, m, a, pane, now);
    var (db1, m1) := RecordContextPercent(o, db, m, a, pane, now);
    CheckEffect(o, db1, m1, a, pane, now);
    SameIdles(o, db, m, db1, m1, a, pane);
    var (m2, isIdle) := CheckScreenDiff(o, db1, m1, a, pane, now);
    TransitionPart(db1, m2, a, isIdle, now);
    TouchPart(HandleIdleTransitions(db1, m2, a, isIdle, now), a.name, now);
  }

  lemma ContextPart(o: Oracle, db: Db, m: Monitor, a: AgentRecord, pane: string, now: int)
    requires Coherent(o, m) && a.name in db.rows && db.rows[a.name].name == a.name
    ensures var (db', m') := RecordContextPercent(o, db, m, a, pane, now);
            && RowBecomes(db, db', a.name, db.rows[a.name].state, None) && Coherent(o, m') && m' == m.(compiled := m'.compiled)
            && Landings(db', ActivityDetected, a.name) == Landings(db, ActivityDetected, a.name)
            && Landings(db', IdleDetected, a.name) == Landings(db, IdleDetected, a.name)
  {
    ContextEffect(o, db, m, a, pane, now);
    ContextFrame(o, db, m, a, pane, now);
    DetectionIsFresh(o, db, m, a.engine);
    ContextTimes(o, db, m, a, pane, now, ActivityDetected, a.name);
    ContextTimes(o, db, m, a, pane, now, IdleDetected, a.name);
    hide Write, GetDetection, Times;
  }

  lemma SameIdles(o: Oracle, db: Db, m: Monitor, db': Db, m': Monitor, a: AgentRecord, pane: string)
    requires db'.detection == db.detection && m'.screen == m.screen
    ensures Idles(o, db', m', a, pane) == Idles(o, db, m, a, pane)
  {
    hide Seen, Noisy;
  }

  lemma TransitionPart(db: Db, m: Monitor, a: AgentRecord, isIdle: bool, now: int)
    requires a.name in db.rows && db.rows[a.name].name == a.name
    ensures var db' := HandleIdleTransitions(db, m, a, isIdle, now);
            var row := db.rows[a.name];
            var wakes := a.state == Idle && !isIdle && row.state == Idle;
            var sleeps := FallsAsleep(db, m, a, isIdle, now);
            && RowBecomes(db, db', a.name, if wakes then Active else if sleeps then Idle else row.state, if wakes || sleeps then Some(now) else None)
            && Landings(db', ActivityDetected, a.name) == Landings(db, ActivityDetected, a.name) + (if wakes then 1 else 0)
            && Landings(db', IdleDetected, a.name) == Landings(db, IdleDetected, a.name) + (if sleeps then 1 else 0)
  {
    TransitionOutcome(db, m, a, isIdle, now);
    var db', row := HandleIdleTransitions(db, m, a, isIdle, now), db.rows[a.name];
    if Wakes(db, a, isIdle) {
      LandsOnce(db, db', a.name, ActivityDetected, row, Active, Touch(now), now, ActivityDetected);
      LandsOnce(db, db', a.name, ActivityDetected, row, Active, Touch(now), now, IdleDetected);
    } else if FallsAsleep(db, m, a, isIdle, now) {
      LandsOnce(db, db', a.name, IdleDetected, row, Idle, Touch(now), now, ActivityDetected);
      LandsOnce(db, db', a.name, IdleDetected, row, Idle, Touch(now), now, IdleDetected);
    }
    hide HandleIdleTransitions, Times;
  }

  lemma TouchPart(db: Db, name: string, now: int)
    requires name in db.rows && db.rows[name].name == name
    ensures var db' := TouchLatest(db, name, now);
            && RowBecomes(db, db', name, db.rows[name].state, Some(now))
            && Landings(db', ActivityDetected, name) == Landings(db, ActivityDetected, name)
            && Landings(db', IdleDetected, name) == Landings(db, IdleDetected, name)
  {
    TouchEffect(db, name, now);
    TouchTimes(db, name, now, ActivityDetected, name);
    TouchTimes(db, name, now, IdleDetected, name);
    hide TouchLatest, Times;
  }

  // ── steps of the runs ──

  /** An answered full poll whose pane gives no exit verdict: the agent wakes up, goes idle or stays. */
  lemma FullPollEffect(o: Oracle, w: World, id: nat, a: AgentRecord, pane: string)
    requires WorldGood(w) && Coherent(o, w.m) && id in w.polls && w.polls[id] == FullCapture(a) && a.name in w.db.rows
    requires InHealGrace(w.m, a.name, w.now) || !(o.shellPrompt(pane) || o.exitMessage(pane)) || CountOf(w.m.counters, ShellCounter, a.name) == 0
    ensures var w' := Step(o, w, ResumeCapture(id, Answered(pane)));
            var idle := Idles(o, w.db, w.m, a, pane);
            var row := w.db.rows[a.name];
            var wakes := a.state == Idle && !idle && row.state == Idle;
            var sleeps := FallsAsleep(w.db, w.m.(compiled := w'.m.compiled), a, idle, w.now);
            && RowBecomes(w.db, w'.db, a.name, if wakes then Active else if sleeps then Idle else row.state, if idle then None else Some(w.now))
            && (if idle then id in w'.polls && w'.polls[id] == FullFinish(a.name) else id !in w'.polls)
            && Landings(w'.db, ActivityDetected, a.name) == Landings(w.db, ActivityDetected, a.name) + (if wakes then 1 else 0)
            && Landings(w'.db, IdleDetected, a.name) == Landings(w.db, IdleDetected, a.name) + (if sleeps then 1 else 0)
  {
    hide CapturePaneOutput, DetectCliExit, AfterLivePane, Idles, RowBecomes, Landings, CountOf, InHealGrace;
    hide AfterFastActivity, AfterFullActivity, AfterFastCapture, AfterFailedCapture, BeginFull, Writes, Disciplined, PollGood;
    var c := CapturePaneOutput(w.db, w.m, a, Answered(pane), w.now);
    var e := DetectCliExit(o, c.db, c.m, a, pane, w.now);
    NoExit(o, w, a, pane);
    LivePaneEffect(o, e.db, e.m, a, pane, w.now);
    SameIdles(o, w.db, w.m, e.db, e.m, a, pane);
  }

  /** The capture and the exit check leave the table and all but the counters alone. */
  lemma NoExit(o: Oracle, w: World, a: AgentRecord, pane: string)
    requires InHealGrace(w.m, a.name, w.now) || !(o.shellPrompt(pane) || o.exitMessage(pane)) || CountOf(w.m.counters, ShellCounter, a.name) == 0
    requires Consistent(w.db) && a.name in w.db.rows
    ensures w.db.rows[a.name].name == a.name
    ensures var c := CapturePaneOutput(w.db, w.m, a, Answered(pane), w.now);
            var e := DetectCliExit(o, c.db, c.m, a, pane, w.now);
            && c.outcome == Pane(pane) && e.verdict == No && e.db == w.db
            && e.m.screen == w.m.screen && e.m.compiled == w.m.compiled
  {
    CaptureFrame(w.db, w.m, a, Answered(pane), w.now);
    var c := CapturePaneOutput(w.db, w.m, a, Answered(pane), w.now);
    ShellCountStays(w.db, w.m, a, pane, w.now);
    ExitEffect(o, c.db, c.m, a, pane, w.now);
    ExitFrame(o, c.db, c.m, a, pane, w.now);
    hide CapturePaneOutput, DetectCliExit, CountOf;
  }

  lemma ShellCountStays(db: Db, m: Monitor, a: AgentRecord, pane: string, now: int)
    ensures CountOf(CapturePaneOutput(db, m, a, Answered(pane), now).m.counters, ShellCounter, a.name) == CountOf(m.counters, ShellCounter, a.name)
  {
    assert |"shell_" + a.name| == 6 + |a.name|;
  }

  /** An answered fast poll puts an active agent to sleep on an idle verdict, and does nothing else. */
  lemma FastPollEffect(o: Oracle, w: World, id: nat, a: AgentRecord, pane: string)
    requires WorldGood(w) && Coherent(o, w.m) && id in w.polls && w.polls[id] == FastCapture(a) && a.name in w.db.rows
    ensures var w' := Step(o, w, ResumeCapture(id, Answered(pane)));
            var idle := Idles(o, w.db, w.m, a, pane);
            var sleeps := FallsAsleep(w.db, w.m.(compiled := w'.m.compiled), a, idle, w.now);
            && RowBecomes(w.db, w'.db, a.name, if sleeps then Idle else w.db.rows[a.name].state, if sleeps then Some(w.now) else None)
            && id !in w'.polls && (!sleeps ==> w'.db == w.db)
            && Landings(w'.db, IdleDetected, a.name) == Landings(w.db, IdleDetected, a.name) + (if sleeps then 1 else 0)
  {
    hide CapturePaneOutput, CheckScreenDiff, HandleIdleTransitions, Idles, RowBecomes, Landings, Lands, Writes, Disciplined;
    hide AfterFastActivity, AfterFullActivity, AfterFullCapture, AfterFailedCapture, BeginFull, Known;
    var c := CapturePaneOutput(w.db, w.m, a, Answered(pane), w.now);
    CaptureFrame(w.db, w.m, a, Answered(pane), w.now);
    CheckEffect(o, c.db, c.m, a, pane, w.now);
    SameIdles(o, w.db, w.m, c.db, c.m, a, pane);
    var (m1, isIdle) := CheckScreenDiff(o, c.db, c.m, a, pane, w.now);
    assert PollGood(w.db, w.polls[id]) && w.db.rows[a.name].name == a.name;
    TransitionPart(c.db, m1, a, isIdle, w.now);
    TransitionOutcome(c.db, m1, a, isIdle, w.now);
  }

  /** An activity answer. If the time has not moved and no patterns apply, the poll ends with an idle
      verdict; otherwise it goes on to capture, with the record it holds. */
  lemma ActivityStep(o: Oracle, w: World, id: nat, act: Activity)
    requires WorldGood(w) && Coherent(o, w.m) && id in w.polls && (w.polls[id].FastActivity? || w.polls[id].FullActivity?)
    ensures var w' := Step(o, w, ResumeActivity(id, act));
            var p := w.polls[id];
            var a := p.agent;
            var patterns := if p.FullActivity? then p.hasPatterns else Fresh(o, w.db, a.engine).Some?;
            var settled := act.At? && a.name in w.m.lastActivityTs && w.m.lastActivityTs[a.name] == act.ts && !patterns;
            && (act.At? ==> a.name in w'.m.lastActivityTs && w'.m.lastActivityTs[a.name] == act.ts)
            && (if settled then
                  && id !in w'.polls
                  && (a.name in w.db.rows ==>
                        RowBecomes(w.db, w'.db, a.name,
                                   if FallsAsleep(w.db, w'.m, a, true, w.now) then Idle else w.db.rows[a.name].state, None))
                else
                  && w'.db == w.db && id in w'.polls
                  && w'.polls[id] == if p.FastActivity? then FastCapture(a) else FullCapture(a))
  {
    hide GetDetection, NoteActivity, HandleIdleTransitions, Landings, Writes, Disciplined, Known;
    hide AfterFastCapture, AfterFullCapture, AfterFailedCapture, BeginFull;
    var p := w.polls[id];
    var a := p.agent;
    DetectionIsFresh(o, w.db, w.m, a.engine);
    DetectionFrame(o, w.db, w.m, a.engine);
    var m1 := if p.FastActivity? then GetDetection(o, w.db, w.m, a.engine).0 else w.m;
    var patterns := if p.FullActivity? then p.hasPatterns else Fresh(o, w.db, a.engine).Some?;
    ActivityEffect(m1, a.name, act, patterns);
    ActivityFrame(m1, a.name, act, patterns);
    var m2 := NoteActivity(m1, a.name, act, patterns).0;
    if a.name in w.db.rows { TransitionPart(w.db, m2, a, true, w.now); }
  }

  /** Polls begin for active agents, for active or idle ones, and for failed ones, if on a proxy; they
      hold the row as it is. */
  lemma StartEffect(o: Oracle, w: World, e: Event)
    requires (e.StartFast? || e.StartFull? || e.StartFailed?) && e.id !in w.polls && Coherent(o, w.m)
    ensures var w' := Step(o, w, e);
            var there := e.name in w.db.rows && w.db.rows[e.name].proxyId.Some?;
            && w'.db == w.db && w'.polls - {e.id} == w.polls
            && (e.id in w'.polls <==>
                  there && match e {
                    case StartFast(_, n) => w.db.rows[n].state == Active
                    case StartFull(_, n) => w.db.rows[n].state == Active || w.db.rows[n].state == Idle
                    case StartFailed(_, n) => w.db.rows[n].state == Failed
                    case _ => false
                  })
            && (e.id in w'.polls ==>
                  w'.polls[e.id] == match e {
                    case StartFast(_, n) => FastActivity(w.db.rows[n])
                    case StartFull(_, n) => FullActivity(w.db.rows[n], Fresh(o, w.db, w.db.rows[n].engine).Some?)
                    case _ => FailedCapture(w.db.rows[e.name])
                  })
  {
    if e.StartFull? && e.name in w.db.rows { DetectionIsFresh(o, w.db, w.m, w.db.rows[e.name].engine); }
    hide GetDetection;
    assert w.polls - {e.id} == w.polls;
  }

  /** The closing stretch of a full poll notes the time. */
  lemma FinishEffect(o: Oracle, w: World, id: nat, name: string)
    requires WorldGood(w) && id in w.polls && w.polls[id] == FullFinish(name) && name in w.db.rows
    ensures var w' := Step(o, w, ResumeFinish(id));
            RowBecomes(w.db, w'.db, name, w.db.rows[name].state, Some(w.now)) && w'.polls == w.polls - {id}
  {
    assert w.db.rows[name].name == name;
    TouchPart(w.db, name, w.now);
    hide TouchLatest, Landings;
  }

  /** Refused captures: the third in a row of a current record fails the agent. */
  lemma RefusedPollEffect(o: Oracle, w: World, id: nat, a: AgentRecord, error: string)
    requires id in w.polls && (w.polls[id] == FastCapture(a) || w.polls[id] == FullCapture(a))
    ensures var w' := Step(o, w, ResumeCapture(id, Refused(error)));
            && id !in w'.polls
            && if CountOf(w.m.counters, CaptureCounter, a.name) >= 2 && a.name in w.db.rows && w.db.rows[a.name].version == a.version then
                 Lands(w.db, w'.db, a.name, CaptureFailed, a, Failed, Failure(w.now, error), w.now)
                 && CountOf(w'.m.counters, CaptureCounter, a.name) == 0
               else
                 w'.db == w.db && CountOf(w'.m.counters, CaptureCounter, a.name) == CountOf(w.m.counters, CaptureCounter, a.name) + 1
  {
    CaptureEffect(w.db, w.m, a, Refused(error), w.now);
    RefusedIsNoPane(w.db, w.m, a, Refused(error), w.now);
    hide CapturePaneOutput, Lands;
  }

  /** A full poll's second shell sign in a row of a current record fails the agent. */
  lemma ExitPollEffect(o: Oracle, w: World, id: nat, a: AgentRecord, pane: string)
    requires id in w.polls && w.polls[id] == FullCapture(a) && a.name in w.db.rows && w.db.rows[a.name].version == a.version
    requires !InHealGrace(w.m, a.name, w.now) && (o.shellPrompt(pane) || o.exitMessage(pane)) && CountOf(w.m.counters, ShellCounter, a.name) >= 1
    ensures var w' := Step(o, w, ResumeCapture(id, Answered(pane)));
            && id !in w'.polls
            && Lands(w.db, w'.db, a.name, CliExit, a, Failed, Failure(w.now, o.exitReason(pane)), w.now)
            && forall c: Counter :: CountOf(w'.m.counters, c, a.name) == 0
  {
    CaptureFrame(w.db, w.m, a, Answered(pane), w.now);
    var c := CapturePaneOutput(w.db, w.m, a, Answered(pane), w.now);
    ShellCountStays(w.db, w.m, a, pane, w.now);
    ExitEffect(o, c.db, c.m, a, pane, w.now);
    hide CapturePaneOutput, DetectCliExit, Lands, CountOf;
  }

  /** A failed agent's poll: the second live pane in a row unlike the snapshot revives a current record. */
  lemma HealPollEffect(o: Oracle, w: World, id: nat, a: AgentRecord, pane: string)
    requires id in w.polls && w.polls[id] == FailedCapture(a) && a.name in w.db.rows && w.db.rows[a.name].version == a.version
    requires a.name in w.m.failureSnapshot && pane != w.m.failureSnapshot[a.name] && !o.shellPrompt(pane) && o.alive(pane)
    ensures var w' := Step(o, w, ResumeCapture(id, Answered(pane)));
            && id !in w'.polls
            && if CountOf(w.m.counters, HealCounter, a.name) >= 1 then
                 Lands(w.db, w'.db, a.name, CliHealed, a, Active, ClearFailure, w.now)
                 && a.name !in w'.m.failureSnapshot && a.name in w'.m.healedAt && w'.m.healedAt[a.name] == w.now
               else w'.db == w.db && CountOf(w'.m.counters, HealCounter, a.name) == 1
  {
    HealEffect(o, w.db, w.m, a, pane, w.now);
    hide DetectCliHealed, Lands, CountOf;
  }

  lemma WriteLands(db: Db, actor: Actor, read: AgentRecord, to: AgentState, extra: Extra, now: int)
    ensures var a := Write(db, actor, read, to, extra, now);
            if read.name in db.rows && db.rows[read.name].version == read.version
            then Lands(db, a.db, read.name, actor, read, to, extra, now) else a.db == db
  {
    hide Write;
    WriteOutcome(db, actor, read, to, extra, now);
  }

  /** What the other actors do: a delivery wakes an idle agent, a sweep fails the running agents of its
      proxy, an unavailable proxy fails any, and a lifecycle write lands if its record is current. */
  lemma ActorEffect(o: Oracle, w: World, e: Event)
    requires WorldGood(w) && (e.DeliveryDone? || e.SweepProxy? || e.ProxyUnavailable? || e.Lifecycle?)
    ensures var name := if e.Lifecycle? then e.read.name else e.name;
            var acts := name in w.db.rows && match e {
                case DeliveryDone(n) => w.db.rows[n].state == Idle
                case SweepProxy(n, proxy) => w.db.rows[n].proxyId == Some(proxy) && w.db.rows[n].state in {Active, Idle, Spawning, Resuming}
                case ProxyUnavailable(n, _) => w.db.rows[n].state != Failed
                case Lifecycle(read, _, _) => w.db.rows[name].version == read.version
                case _ => false
              };
            var w' := Step(o, w, e);
            && w'.m == w.m && w'.polls == w.polls
            && (!acts ==> w' == w)
            && (acts ==> match e {
                  case DeliveryDone(n) => Lands(w.db, w'.db, n, Delivery, w.db.rows[n], Active, Touch(w.now), w.now)
                  case SweepProxy(n, _) =>
                    Lands(w.db, w'.db, n, ProxySweep, w.db.rows[n], Failed, Failure(w.now, "Proxy disconnected"), w.now)
                  case ProxyUnavailable(n, reason) => Lands(w.db, w'.db, n, Background, w.db.rows[n], Failed, Failure(w.now, reason), w.now)
                  case Lifecycle(read, to, extra) => Lands(w.db, w'.db, name, Outside, read, to, extra, w.now)
                  case _ => true
                })
  {
    hide Write, Writes, Disciplined, RowAfter, Lands, PollGood, Known;
    hide AfterFastActivity, AfterFullActivity, AfterFastCapture, AfterFullCapture, AfterFailedCapture, BeginFull;
    var name := if e.Lifecycle? then e.read.name else e.name;
    if name in w.db.rows {
      var row := w.db.rows[name];
      assert row.name == name;
      match e
      case DeliveryDone(_) => WriteLands(w.db, Delivery, row, Active, Touch(w.now), w.now);
      case SweepProxy(_, _) => WriteLands(w.db, ProxySweep, row, Failed, Failure(w.now, "Proxy disconnected"), w.now);
      case ProxyUnavailable(_, reason) => WriteLands(w.db, Background, row, Failed, Failure(w.now, reason), w.now);
      case Lifecycle(read, to, extra) => WriteLands(w.db, Outside, read, to, extra, w.now);
    } else if e.Lifecycle? {
      WriteLands(w.db, Outside, e.read, e.to, e.extra, w.now);
    }
  }

  // ── the cache over runs ──

  lemma LivePaneKeepsCache(o: Oracle, db: Db, m: Monitor, a: AgentRecord, pane: string, now: int)
    requires Coherent(o, m)
    ensures Coherent(o, AfterLivePane(o, db, m, a, pane, now).m)
  {
    DetectionIsFresh(o, db, m, a.engine);
    ContextFrame(o, db, m, a, pane, now);
    ContextCache(o, db, m, a, pane, now);
    var (db1, m1) := RecordContextPercent(o, db, m, a, pane, now);
    CheckEffect(o, db1, m1, a, pane, now);
    hide RecordContextPercent, CheckScreenDiff, HandleIdleTransitions, TouchLatest, Idles, GetDetection;
  }

  lemma ContextCache(o: Oracle, db: Db, m: Monitor, a: AgentRecord, pane: string, now: int)
    ensures RecordContextPercent(o, db, m, a, pane, now).1 == GetDetection(o, db, m, a.engine).0
  {
    hide GetDetection, Write;
  }

  lemma StepKeepsCache(o: Oracle, w: World, e: Event)
    requires Coherent(o, w.m)
    ensures Coherent(o, Step(o, w, e).m)
  {
    if e.ResumeCapture? {
      if e.id in w.polls { CaptureKeepsCache(o, w, e.id, e.resp); }
      hide AfterFastCapture, AfterFullCapture, AfterFailedCapture, Coherent;
    } else {
      OtherKeepsCache(o, w, e);
    }
  }

  lemma CaptureKeepsCache(o: Oracle, w: World, id: nat, resp: Response)
    requires Coherent(o, w.m) && id in w.polls
    ensures Coherent(o, Step(o, w, ResumeCapture(id, resp)).m)
  {
    hide CapturePaneOutput, DetectCliExit, DetectCliHealed, CheckScreenDiff, AfterLivePane, HandleIdleTransitions, Idles;
    match w.polls[id]
    case FastCapture(a) =>
      var c := CapturePaneOutput(w.db, w.m, a, resp, w.now);
      CaptureFrame(w.db, w.m, a, resp, w.now);
      if c.outcome.Pane? { CheckEffect(o, c.db, c.m, a, c.outcome.text, w.now); }
    case FullCapture(a) =>
      var c := CapturePaneOutput(w.db, w.m, a, resp, w.now);
      CaptureFrame(w.db, w.m, a, resp, w.now);
      if c.outcome.Pane? {
        ExitFrame(o, c.db, c.m, a, c.outcome.text, w.now);
        var e := DetectCliExit(o, c.db, c.m, a, c.outcome.text, w.now);
        LivePaneKeepsCache(o, e.db, e.m, a, c.outcome.text, w.now);
      }
    case FailedCapture(a) =>
      if resp.Answered? { HealFrame(o, w.db, w.m, a, resp.data, w.now); }
    case _ =>
  }

  lemma OtherKeepsCache(o: Oracle, w: World, e: Event)
    requires Coherent(o, w.m) && !e.ResumeCapture?
    ensures Coherent(o, Step(o, w, e).m)
  {
    hide GetDetection, NoteActivity, HandleIdleTransitions, TouchLatest, Write, CleanCounters, CleanScreen;
    match e
    case ResumeActivity(id, act) =>
      if id in w.polls && (w.polls[id].FastActivity? || w.polls[id].FullActivity?) {
        var a := w.polls[id].agent;
        DetectionIsFresh(o, w.db, w.m, a.engine);
        var (m1, d) := GetDetection(o, w.db, w.m, a.engine);
        ActivityFrame(m1, a.name, act, d.Some?);
        if w.polls[id].FullActivity? { ActivityFrame(w.m, a.name, act, w.polls[id].hasPatterns); }
      }
    case StartFull(id, name) => if name in w.db.rows { DetectionIsFresh(o, w.db, w.m, w.db.rows[name].engine); }
    case _ =>
  }

  /** Throughout every run the detection config used is the one stored, parsed afresh. */
  lemma {:induction false} CacheStaysCoherent(o: Oracle, ws: seq<World>, es: seq<Event>, i: nat)
    requires IsRun(o, ws, es) && Coherent(o, ws[0].m) && i < |ws|
    ensures Coherent(o, ws[i].m)
  {
    hide Step, Coherent;
    if i > 0 {
      CacheStaysCoherent(o, ws, es, i - 1);
      StepKeepsCache(o, ws[i - 1], es[i - 1]);
    }
  }
}
