/** What one uninterrupted stretch of health-monitor code does, between two awaits. */
module HealthSpec {
  import opened Options
  import opened AgentsTable

  const FAILURE_THRESHOLD := 3
  const IDLE_THRESHOLD := 2
  const ACTIVE_GRACE_MS := 10000
  const SNAPSHOT_LINES := 30
  const HEAL_GRACE_MS := 60000

  datatype Pattern = Pattern(re: string, lines: Option<nat>)

  datatype Detection = Detection(
    idlePatterns: seq<Pattern>,
    activePatterns: seq<Pattern>,
    idleThreshold: Option<int>,
    activeGraceMs: Option<int>,
    snapshotLines: Option<int>)

  datatype Compiled = Compiled(json: string, config: Detection)

  /** Everything that reads pane text or JSON text, left uninterpreted. `parse` is None for
      malformed JSON and leaves out patterns whose regex does not compile. */
  datatype Oracle = Oracle(
    parse: string -> Option<Detection>,
    test: (string, string) -> bool,
    tail: (string, Option<nat>) -> string,
    snapshot: (string, int) -> string,
    shellPrompt: string -> bool,
    exitMessage: string -> bool,
    exitReason: string -> string,
    alive: string -> bool,
    contextPct: (Option<Compiled>, string, string) -> Option<int>)

  predicate ShellPrompt(o: Oracle, pane: string) { o.shellPrompt(pane) }

  predicate ExitMessage(o: Oracle, pane: string) { o.exitMessage(pane) }

  predicate Alive(o: Oracle, pane: string) { o.alive(pane) }

  function Parse(o: Oracle, json: string): Option<Detection> { o.parse(json) }

  function ExitReason(o: Oracle, pane: string): string { o.exitReason(pane) }

  function ContextPct(o: Oracle, d: Option<Compiled>, engine: string, pane: string): Option<int> {
    o.contextPct(d, engine, pane)
  }

  /** One capture handed to the screen diff, as the screen diff sees it. */
  datatype Capture = Capture(snapshot: string, active: bool, idle: bool)

  /** The three hysteresis counters that share the `consecutiveFailures` map. */
  datatype Counter = CaptureCounter | ShellCounter | HealCounter

  function Key(c: Counter, name: string): string {
    match c
    case CaptureCounter => name
    case ShellCounter => "shell_" + name
    case HealCounter => "heal_" + name
  }

  /** One check that feeds a hysteresis counter, with what it looked at. */
  datatype Check =
    | CaptureCheck(ok: bool)
    | ShellCheck(pane: string, suppressed: bool)
    | HealCheck(pane: string, stored: Option<string>)

  /** Whether the check counts towards the threshold. */
  predicate Evidence(o: Oracle, c: Check) {
    match c
    case CaptureCheck(ok) => !ok
    case ShellCheck(pane, suppressed) => !suppressed && (ShellPrompt(o, pane) || ExitMessage(o, pane))
    case HealCheck(pane, stored) =>
      !ShellPrompt(o, pane) && stored.Some? && pane != stored.value && Alive(o, pane)
  }

  /** What the screen diff keeps per agent. `captures` (since the last cleanup) and `activity` (the
      times at which activity was detected) are history variables that no code reads. */
  datatype Screen = Screen(
    lastPaneSnapshot: map<string, string>,
    unchangedCount: map<string, nat>,
    lastActivityDetected: map<string, int>,
    captures: map<string, seq<Capture>>,
    activity: map<string, seq<int>>)

  /** The shared counter map; `checks` is the history of every check made. */
  datatype Counters = Counters(
    consecutiveFailures: map<string, nat>,
    checks: map<(Counter, string), seq<Check>>)

  /** The monitor's per-agent maps, grouped by the code that uses them together. */
  datatype Monitor = Monitor(
    counters: Counters,
    screen: Screen,
    failureSnapshot: map<string, string>,
    healedAt: map<string, int>,
    lastActivityTs: map<string, int>,
    compiled: map<string, Compiled>)

  function Get<K, V>(m: map<K, V>, k: K, default: V): V {
    if k in m then m[k] else default
  }

  function Without<K, V>(m: map<K, V>, k: K): map<K, V> {
    m - {k}
  }

  function Noted(k: Counters, c: Counter, name: string, check: Check): Counters {
    k.(checks := k.checks[(c, name) := Get(k.checks, (c, name), []) + [check]])
  }

  /** A counter map entry dropped, or set. */
  function Dropped(k: Counters, key: string): Counters {
    k.(consecutiveFailures := Without(k.consecutiveFailures, key))
  }

  function Counted(k: Counters, key: string, count: nat): Counters {
    k.(consecutiveFailures := k.consecutiveFailures[key := count])
  }

  // ── Detection cache ──

  /** A malformed config yields None but leaves an older compiled entry in the cache. */
  function GetDetection(o: Oracle, db: Db, m: Monitor, engine: string): (Monitor, Option<Compiled>) {
    if engine !in db.detection || db.detection[engine] == "" then
      (m.(compiled := Without(m.compiled, engine)), None)
    else
      var json := db.detection[engine];
      if engine in m.compiled && m.compiled[engine].json == json then
        (m, Some(m.compiled[engine]))
      else
        match Parse(o, json)
        case None => (m, None)
        case Some(config) =>
          var c := Compiled(json, config);
          (m.(compiled := m.compiled[engine := c]), Some(c))
  }

  // ── Screen diff ──

  /** A pattern is tried on its own number of trailing lines, or on the whole pane. */
  predicate Matches(o: Oracle, p: Pattern, pane: string) {
    o.test(p.re, o.tail(pane, p.lines))
  }

  predicate AnyMatch(o: Oracle, patterns: seq<Pattern>, pane: string) {
    exists i :: 0 <= i < |patterns| && Matches(o, patterns[i], pane)
  }

  function Observe(o: Oracle, d: Option<Compiled>, pane: string): Capture {
    var lines := if d.Some? && d.value.config.snapshotLines.Some?
                 then d.value.config.snapshotLines.value else SNAPSHOT_LINES;
    Capture(
      o.snapshot(pane, lines),
      d.Some? && AnyMatch(o, d.value.config.activePatterns, pane),
      d.Some? && AnyMatch(o, d.value.config.idlePatterns, pane))
  }

  function Threshold(d: Option<Compiled>): int {
    if d.Some? && d.value.config.idleThreshold.Some? then d.value.config.idleThreshold.value
    else IDLE_THRESHOLD
  }

  function DiffCapture(s: Screen, name: string, c: Capture, threshold: int, now: int): (Screen, bool) {
    var s1 := s.(
      lastPaneSnapshot := s.lastPaneSnapshot[name := c.snapshot],
      captures := s.captures[name := Get(s.captures, name, []) + [c]]);
    if c.active then (ActivitySeen(s1, name, now), false)
    else if c.idle then StillQuiet(s1, name, threshold)
    else if name !in s.lastPaneSnapshot then (s1.(unchangedCount := s.unchangedCount[name := 0]), false)
    else if s.lastPaneSnapshot[name] == c.snapshot then StillQuiet(s1, name, threshold)
    else (ActivitySeen(s1, name, now), false)
  }

  function ActivitySeen(s: Screen, name: string, now: int): Screen {
    s.(unchangedCount := s.unchangedCount[name := 0],
       lastActivityDetected := s.lastActivityDetected[name := now],
       activity := s.activity[name := Get(s.activity, name, []) + [now]])
  }

  function StillQuiet(s: Screen, name: string, threshold: int): (Screen, bool) {
    var count := Get(s.unchangedCount, name, 0) + 1;
    (s.(unchangedCount := s.unchangedCount[name := count]), count >= threshold)
  }

  function CheckScreenDiff(o: Oracle, db: Db, m: Monitor, agent: AgentRecord, pane: string, now: int): (Monitor, bool) {
    var (m1, d) := GetDetection(o, db, m, agent.engine);
    var (s, isIdle) := DiffCapture(m.screen, agent.name, Observe(o, d, pane), Threshold(d), now);
    (m1.(screen := s), isIdle)
  }

  // ── Idle transitions ──

  function GraceMs(m: Monitor, engine: string): int {
    if engine in m.compiled && m.compiled[engine].config.activeGraceMs.Some?
    then m.compiled[engine].config.activeGraceMs.value
    else ACTIVE_GRACE_MS
  }

  function HandleIdleTransitions(db: Db, m: Monitor, agent: AgentRecord, isIdle: bool, now: int): Db {
    if agent.state == Active && isIdle then
      if now - Get(m.screen.lastActivityDetected, agent.name, 0) < GraceMs(m, agent.engine) then db
      else if agent.name in db.rows && db.rows[agent.name].state == Active then
        Write(db, IdleDetected, db.rows[agent.name], Idle, Touch(now), now).db
      else db
    else if agent.state == Idle && !isIdle then
      if agent.name in db.rows && db.rows[agent.name].state == Idle then
        Write(db, ActivityDetected, db.rows[agent.name], Active, Touch(now), now).db
      else db
    else db
  }

  // ── Capture failures ──

  datatype Response = Refused(error: string) | Answered(data: string)

  /** Threw: a versioned write was rejected, and the rest of the stretch was abandoned. */
  datatype Captured = Pane(text: string) | NoPane | Threw

  datatype CaptureStep = CaptureStep(db: Db, m: Monitor, outcome: Captured)

  function CapturePaneOutput(db: Db, m: Monitor, agent: AgentRecord, resp: Response, now: int): CaptureStep {
    match resp
    case Answered(data) =>
      var k := Noted(m.counters, CaptureCounter, agent.name, CaptureCheck(true));
      CaptureStep(db, m.(counters := Dropped(k, agent.name)), Pane(data))
    case Refused(error) =>
      var k := Noted(m.counters, CaptureCounter, agent.name, CaptureCheck(false));
      CountRefusal(db, m.(counters := k), agent, error, now)
  }

  function CountRefusal(db: Db, m: Monitor, agent: AgentRecord, error: string, now: int): CaptureStep {
    var name := agent.name;
    var failures := Get(m.counters.consecutiveFailures, name, 0) + 1;
    var m1 := m.(counters := Counted(m.counters, name, failures));
    if failures < FAILURE_THRESHOLD then CaptureStep(db, m1, NoPane)
    else
      var snapshot := Get(m.screen.lastPaneSnapshot, name, "");
      var m2 := m1.(failureSnapshot := m.failureSnapshot[name := snapshot]);
      var w := Write(db, CaptureFailed, agent, Failed, Failure(now, error), now);
      if !w.ok then CaptureStep(db, m2, Threw)
      else CaptureStep(w.db, m2.(counters := Dropped(m1.counters, name)), NoPane)
  }

  // ── CLI exit and healing ──

  function CleanScreen(s: Screen, name: string): Screen {
    s.(lastPaneSnapshot := Without(s.lastPaneSnapshot, name),
       unchangedCount := Without(s.unchangedCount, name),
       captures := Without(s.captures, name))
  }

  function CleanCounters(k: Counters, name: string): Counters {
    Dropped(Dropped(Dropped(k, Key(CaptureCounter, name)), Key(ShellCounter, name)), Key(HealCounter, name))
  }

  /** `failureSnapshot` and `lastActivityDetected` stay. */
  function CleanupAgent(m: Monitor, name: string): Monitor {
    m.(counters := CleanCounters(m.counters, name),
       screen := CleanScreen(m.screen, name),
       healedAt := Without(m.healedAt, name),
       lastActivityTs := Without(m.lastActivityTs, name))
  }

  datatype Verdict = Yes | No | Conflict

  datatype DetectStep = DetectStep(db: Db, m: Monitor, verdict: Verdict)

  predicate InHealGrace(m: Monitor, name: string, now: int) {
    name in m.healedAt && now - m.healedAt[name] < HEAL_GRACE_MS
  }

  function DetectCliExit(o: Oracle, db: Db, m: Monitor, agent: AgentRecord, pane: string, now: int): DetectStep {
    var check := ShellCheck(pane, InHealGrace(m, agent.name, now));
    var k := Noted(m.counters, ShellCounter, agent.name, check);
    if Evidence(o, check) then CountExit(db, m.(counters := k), agent, pane, ExitReason(o, pane), now)
    else DetectStep(db, m.(counters := Dropped(k, Key(ShellCounter, agent.name))), No)
  }

  function CountExit(db: Db, m: Monitor, agent: AgentRecord, pane: string, reason: string, now: int): DetectStep {
    var key := Key(ShellCounter, agent.name);
    var count := Get(m.counters.consecutiveFailures, key, 0) + 1;
    var m1 := m.(counters := Counted(m.counters, key, count));
    if count < 2 then DetectStep(db, m1, No)
    else
      var m2 := m1.(failureSnapshot := m.failureSnapshot[agent.name := pane]);
      var w := Write(db, CliExit, agent, Failed, Failure(now, reason), now);
      if !w.ok then DetectStep(db, m2, Conflict)
      else DetectStep(w.db, CleanupAgent(m2, agent.name), Yes)
  }

  function StoredSnapshot(m: Monitor, name: string): Option<string> {
    if name in m.failureSnapshot then Some(m.failureSnapshot[name]) else None
  }

  function DetectCliHealed(o: Oracle, db: Db, m: Monitor, agent: AgentRecord, pane: string, now: int): DetectStep {
    var check := HealCheck(pane, StoredSnapshot(m, agent.name));
    var k := Noted(m.counters, HealCounter, agent.name, check);
    if Evidence(o, check) then CountHeal(db, m.(counters := k), agent, now)
    else
      var baseline := !ShellPrompt(o, pane) && agent.name !in m.failureSnapshot;
      DetectStep(db, RejectHeal(m.(counters := k), agent.name, pane, baseline), No)
  }

  /** A pane without a live sign; the first one ever seen of a failed agent becomes its baseline. */
  function RejectHeal(m: Monitor, name: string, pane: string, baseline: bool): Monitor {
    var reset := m.(counters := Dropped(m.counters, Key(HealCounter, name)));
    if baseline then reset.(failureSnapshot := m.failureSnapshot[name := pane]) else reset
  }

  function CountHeal(db: Db, m: Monitor, agent: AgentRecord, now: int): DetectStep {
    var name, key := agent.name, Key(HealCounter, agent.name);
    var count := Get(m.counters.consecutiveFailures, key, 0) + 1;
    if count < 2 then DetectStep(db, m.(counters := Counted(m.counters, key, count)), No)
    else
      var w := Write(db, CliHealed, agent, Active, ClearFailure, now);
      DetectStep(
        w.db,
        m.(counters := Dropped(m.counters, key),
           failureSnapshot := Without(m.failureSnapshot, name),
           healedAt := m.healedAt[name := now]),
        if w.ok then Yes else Conflict)
  }

  // ── Context percentage and the closing touch ──

  function RecordContextPercent(o: Oracle, db: Db, m: Monitor, agent: AgentRecord, pane: string, now: int): (Db, Monitor) {
    var (m1, d) := GetDetection(o, db, m, agent.engine);
    match ContextPct(o, d, agent.engine, pane)
    case None => (db, m1)
    case Some(pct) =>
      if agent.name in db.rows && CanSuspend(db.rows[agent.name]) then
        var latest := db.rows[agent.name];
        (Write(db, ContextRead, latest, latest.state, Context(pct, now), now).db, m1)
      else (db, m1)
  }

  function TouchLatest(db: Db, name: string, now: int): Db {
    if name in db.rows then
      Write(db, PollDone, db.rows[name], db.rows[name].state, Touch(now), now).db
    else db
  }

  // ── The stretches between awaits ──

  datatype Activity = Unavailable | At(ts: int)

  /** What a poll waits for, holding the record it read; None when it has ended. */
  datatype Poll =
    | FastActivity(agent: AgentRecord)
    | FastCapture(agent: AgentRecord)
    | FullActivity(agent: AgentRecord, hasPatterns: bool)
    | FullCapture(agent: AgentRecord)
    | FullFinish(name: string)
    | FailedCapture(agent: AgentRecord)

  datatype Stretch = Stretch(db: Db, m: Monitor, next: Option<Poll>)

  /** `window_activity` did not move since the last poll and no detection config applies. */
  function NoteActivity(m: Monitor, name: string, act: Activity, hasPatterns: bool): (Monitor, bool) {
    match act
    case Unavailable => (m, false)
    case At(ts) =>
      (m.(lastActivityTs := m.lastActivityTs[name := ts]),
       name in m.lastActivityTs && m.lastActivityTs[name] == ts && !hasPatterns)
  }

  function AfterFastActivity(o: Oracle, db: Db, m: Monitor, agent: AgentRecord, act: Activity, now: int): Stretch {
    var (m1, d) := GetDetection(o, db, m, agent.engine);
    var (m2, still) := NoteActivity(m1, agent.name, act, d.Some?);
    if still then Stretch(HandleIdleTransitions(db, m2, agent, true, now), m2, None)
    else Stretch(db, m2, Some(FastCapture(agent)))
  }

  function AfterFastCapture(o: Oracle, db: Db, m: Monitor, agent: AgentRecord, resp: Response, now: int): Stretch {
    var c := CapturePaneOutput(db, m, agent, resp, now);
    match c.outcome
    case Threw => Stretch(c.db, c.m, None)
    case NoPane => Stretch(c.db, c.m, None)
    case Pane(text) =>
      var (m1, isIdle) := CheckScreenDiff(o, c.db, c.m, agent, text, now);
      Stretch(HandleIdleTransitions(c.db, m1, agent, isIdle, now), m1, None)
  }

  function BeginFull(o: Oracle, db: Db, m: Monitor, name: string): Stretch {
    if name !in db.rows || db.rows[name].proxyId.None? || !CanSuspend(db.rows[name]) then Stretch(db, m, None)
    else
      var (m1, d) := GetDetection(o, db, m, db.rows[name].engine);
      Stretch(db, m1, Some(FullActivity(db.rows[name], d.Some?)))
  }

  function AfterFullActivity(db: Db, m: Monitor, agent: AgentRecord, hasPatterns: bool, act: Activity, now: int): Stretch {
    var (m1, still) := NoteActivity(m, agent.name, act, hasPatterns);
    if still then Stretch(HandleIdleTransitions(db, m1, agent, true, now), m1, None)
    else Stretch(db, m1, Some(FullCapture(agent)))
  }

  function AfterLivePane(o: Oracle, db: Db, m: Monitor, agent: AgentRecord, pane: string, now: int): Stretch {
    var (db1, m1) := RecordContextPercent(o, db, m, agent, pane, now);
    var (m2, isIdle) := CheckScreenDiff(o, db1, m1, agent, pane, now);
    var db2 := HandleIdleTransitions(db1, m2, agent, isIdle, now);
    if isIdle then Stretch(db2, m2, Some(FullFinish(agent.name)))
    else Stretch(TouchLatest(db2, agent.name, now), m2, None)
  }

  function AfterFullCapture(o: Oracle, db: Db, m: Monitor, agent: AgentRecord, resp: Response, now: int): Stretch {
    var c := CapturePaneOutput(db, m, agent, resp, now);
    match c.outcome
    case Threw => Stretch(c.db, c.m, None)
    case NoPane => Stretch(c.db, c.m, None)
    case Pane(text) =>
      var e := DetectCliExit(o, c.db, c.m, agent, text, now);
      if e.verdict != No then Stretch(e.db, e.m, None)
      else
        AfterLivePane(o, e.db, e.m, agent, text, now)
  }

  function BeginFailed(db: Db, m: Monitor, name: string): Stretch {
    if name !in db.rows || db.rows[name].state != Failed || db.rows[name].proxyId.None? then Stretch(db, m, None)
    else Stretch(db, m, Some(FailedCapture(db.rows[name])))
  }

  function AfterFailedCapture(o: Oracle, db: Db, m: Monitor, agent: AgentRecord, resp: Response, now: int): Stretch {
    match resp
    case Refused(_) => Stretch(db, m, None)
    case Answered(pane) =>
      var h := DetectCliHealed(o, db, m, agent, pane, now);
      Stretch(h.db, h.m, None)
  }
}
