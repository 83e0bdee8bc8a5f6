/** The health monitor as an object whose maps every poll updates in place. Each method is one
    stretch of code between two awaits and is proved equal to its specification in HealthSpec. */
module HealthMonitoring {
  import opened Options
  import opened AgentsTable
  import opened HealthSpec

  class HealthMonitor {
    const db: AgentTable
    const oracle: Oracle
    var consecutiveFailures: map<string, nat>
    var failureSnapshot: map<string, string>
    var lastActivityTs: map<string, int>
    var lastPaneSnapshot: map<string, string>
    var unchangedCount: map<string, nat>
    var lastActivityDetected: map<string, int>
    var healedAt: map<string, int>
    var compiledDetection: map<string, Compiled>
    ghost var captures: map<string, seq<Capture>>
    ghost var activity: map<string, seq<int>>
    ghost var checks: map<(Counter, string), seq<Check>>

    ghost function Counts(): Counters
      reads this
    {
      Counters(consecutiveFailures, checks)
    }

    ghost function ScreenView(): Screen
      reads this
    {
      Screen(lastPaneSnapshot, unchangedCount, lastActivityDetected, captures, activity)
    }

    ghost function View(): Monitor
      reads this
    {
      Monitor(Counts(), ScreenView(), failureSnapshot, healedAt, lastActivityTs, compiledDetection)
    }

    constructor (db: AgentTable, oracle: Oracle)
      ensures this.db == db && this.oracle == oracle
      ensures View() == Monitor(Counters(map[], map[]), Screen(map[], map[], map[], map[], map[]), map[], map[], map[], map[])
    {
      this.db, this.oracle := db, oracle;
      consecutiveFailures, failureSnapshot, lastActivityTs := map[], map[], map[];
      lastPaneSnapshot, unchangedCount, lastActivityDetected := map[], map[], map[];
      healedAt, compiledDetection := map[], map[];
      captures, activity, checks := map[], map[], map[];
    }

    ghost method Note(c: Counter, name: string, check: Check)
      modifies this`checks
      ensures Counts() == Noted(old(Counts()), c, name, check)
    {
      checks := checks[(c, name) := Get(checks, (c, name), []) + [check]];
    }

    method GetDetectionConfig(engine: string) returns (d: Option<Compiled>)
      modifies this`compiledDetection
      ensures (View(), d) == GetDetection(oracle, db.View(), old(View()), engine)
    {
      if engine !in db.detection || db.detection[engine] == "" {
        compiledDetection := compiledDetection - {engine};
        return None;
      }
      var json := db.detection[engine];
      if engine in compiledDetection && compiledDetection[engine].json == json {
        return Some(compiledDetection[engine]);
      }
      var config := oracle.parse(json);
      if config.None? {
        return None;
      }
      compiledDetection := compiledDetection[engine := Compiled(json, config.value)];
      return Some(compiledDetection[engine]);
    }

    /** The loop over the patterns of one list; the first match decides. */
    method MatchesAny(patterns: seq<Pattern>, pane: string) returns (found: bool)
      ensures found <==> AnyMatch(oracle, patterns, pane)
    {
      for i := 0 to |patterns|
        invariant forall j :: 0 <= j < i ==> !Matches(oracle, patterns[j], pane)
      {
        if oracle.test(patterns[i].re, oracle.tail(pane, patterns[i].lines)) {
          assert Matches(oracle, patterns[i], pane);
          return true;
        }
      }
      return false;
    }

    /** Recording one observed capture: the part of `checkScreenDiff` after pattern matching. */
    method RecordCapture(name: string, snapshot: string, active: bool, idle: bool, threshold: int, now: int)
      returns (isIdle: bool)
      modifies this`lastPaneSnapshot, this`unchangedCount, this`lastActivityDetected, this`captures, this`activity
      ensures (ScreenView(), isIdle) == DiffCapture(old(ScreenView()), name, Capture(snapshot, active, idle), threshold, now)
    {
      var known := name in lastPaneSnapshot;
      var prev := Get(lastPaneSnapshot, name, "");
      lastPaneSnapshot := lastPaneSnapshot[name := snapshot];
      captures := captures[name := Get(captures, name, []) + [Capture(snapshot, active, idle)]];
      if active {
        isIdle := MarkActive(name, now);
      } else if idle {
        isIdle := MarkQuiet(name, threshold);
      } else if !known {
        unchangedCount := unchangedCount[name := 0];
        isIdle := false;
      } else if snapshot == prev {
        isIdle := MarkQuiet(name, threshold);
      } else {
        isIdle := MarkActive(name, now);
      }
    }

    method MarkActive(name: string, now: int) returns (isIdle: bool)
      modifies this`unchangedCount, this`lastActivityDetected, this`activity
      ensures ScreenView() == ActivitySeen(old(ScreenView()), name, now) && !isIdle
    {
      unchangedCount := unchangedCount[name := 0];
      lastActivityDetected := lastActivityDetected[name := now];
      activity := activity[name := Get(activity, name, []) + [now]];
      isIdle := false;
    }

    method MarkQuiet(name: string, threshold: int) returns (isIdle: bool)
      modifies this`unchangedCount
      ensures (ScreenView(), isIdle) == StillQuiet(old(ScreenView()), name, threshold)
    {
      var count := Get(unchangedCount, name, 0) + 1;
      unchangedCount := unchangedCount[name := count];
      isIdle := count >= threshold;
    }

    method CheckScreen(agent: AgentRecord, pane: string, now: int) returns (isIdle: bool)
      modifies this`compiledDetection, this`lastPaneSnapshot, this`unchangedCount, this`lastActivityDetected,
               this`captures, this`activity
      ensures (View(), isIdle) == CheckScreenDiff(oracle, db.View(), old(View()), agent, pane, now)
    {
      var d := GetDetectionConfig(agent.engine);
      hide GetDetection, DiffCapture;
      var lines := if d.Some? && d.value.config.snapshotLines.Some? then d.value.config.snapshotLines.value
                   else SNAPSHOT_LINES;
      var threshold := if d.Some? && d.value.config.idleThreshold.Some? then d.value.config.idleThreshold.value
                       else IDLE_THRESHOLD;
      var active, idle := false, false;
      if d.Some? {
        active := MatchesAny(d.value.config.activePatterns, pane);
        idle := MatchesAny(d.value.config.idlePatterns, pane);
      }
      isIdle := RecordCapture(agent.name, oracle.snapshot(pane, lines), active, idle, threshold, now);
    }

    method IdleTransitions(agent: AgentRecord, isIdle: bool, now: int)
      requires forall n :: n in db.rows ==> db.rows[n].name == n
      modifies db
      ensures db.View() == HandleIdleTransitions(old(db.View()), View(), agent, isIdle, now)
      ensures View() == old(View())
    {
      if agent.state == Active && isIdle {
        var graceMs := if agent.engine in compiledDetection && compiledDetection[agent.engine].config.activeGraceMs.Some?
                       then compiledDetection[agent.engine].config.activeGraceMs.value else ACTIVE_GRACE_MS;
        if now - Get(lastActivityDetected, agent.name, 0) < graceMs {
          return;
        }
        if agent.name in db.rows && db.rows[agent.name].state == Active {
          var current := db.rows[agent.name];
          var r := db.UpdateAgentState(agent.name, Idle, current.version, Touch(now), IdleDetected, current, now);
        }
      } else if agent.state == Idle && !isIdle {
        if agent.name in db.rows && db.rows[agent.name].state == Idle {
          var current := db.rows[agent.name];
          var r := db.UpdateAgentState(agent.name, Active, current.version, Touch(now), ActivityDetected, current, now);
        }
      }
    }

    method HandleCapture(agent: AgentRecord, resp: Response, now: int) returns (outcome: Captured)
      modifies this`consecutiveFailures, this`failureSnapshot, this`checks, db
      ensures CaptureStep(db.View(), View(), outcome) == CapturePaneOutput(old(db.View()), old(View()), agent, resp, now)
    {
      hide Noted, CountRefusal;
      Note(CaptureCounter, agent.name, CaptureCheck(resp.Answered?));
      match resp
      case Answered(data) =>
        consecutiveFailures := consecutiveFailures - {agent.name};
        outcome := Pane(data);
      case Refused(error) =>
        outcome := CountRefused(agent, error, now);
    }

    /** The refused branch of `capturePaneOutput`, from counting on. */
    method CountRefused(agent: AgentRecord, error: string, now: int) returns (outcome: Captured)
      modifies this`consecutiveFailures, this`failureSnapshot, db
      ensures CaptureStep(db.View(), View(), outcome) == CountRefusal(old(db.View()), old(View()), agent, error, now)
    {
      hide Write, RowAfter;
      var failures := Get(consecutiveFailures, agent.name, 0) + 1;
      consecutiveFailures := consecutiveFailures[agent.name := failures];
      if failures >= FAILURE_THRESHOLD {
        var lastKnown := Get(lastPaneSnapshot, agent.name, "");
        failureSnapshot := failureSnapshot[agent.name := lastKnown];
        var r := db.UpdateAgentState(
          agent.name, Failed, agent.version, Failure(now, error), CaptureFailed, agent, now);
        if r.None? {
          return Threw;
        }
        consecutiveFailures := consecutiveFailures - {agent.name};
      }
      outcome := NoPane;
    }

    method Cleanup(name: string)
      modifies this`consecutiveFailures, this`lastPaneSnapshot, this`unchangedCount, this`lastActivityTs,
               this`healedAt, this`captures
      ensures View() == CleanupAgent(old(View()), name)
    {
      hide CleanCounters;
      CleanedKeys(Counts(), name);
      lastPaneSnapshot := lastPaneSnapshot - {name};
      unchangedCount := unchangedCount - {name};
      consecutiveFailures := consecutiveFailures - {name};
      consecutiveFailures := consecutiveFailures - {"shell_" + name};
      consecutiveFailures := consecutiveFailures - {"heal_" + name};
      lastActivityTs := lastActivityTs - {name};
      healedAt := healedAt - {name};
      captures := captures - {name};
    }

    lemma CleanedKeys(k: Counters, name: string)
      ensures CleanCounters(k, name) ==
              Counters(k.consecutiveFailures - {name} - {"shell_" + name} - {"heal_" + name}, k.checks)
    {
    }

    lemma ExitEvidence(name: string, pane: string, now: int)
      ensures InHealGrace(View(), name, now) <==> name in healedAt && now - healedAt[name] < HEAL_GRACE_MS
      ensures ShellPrompt(oracle, pane) == oracle.shellPrompt(pane) && ExitMessage(oracle, pane) == oracle.exitMessage(pane)
      ensures ExitReason(oracle, pane) == oracle.exitReason(pane)
    {
    }

    method DetectExit(agent: AgentRecord, pane: string, now: int) returns (verdict: Verdict)
      modifies this`consecutiveFailures, this`failureSnapshot, this`checks, this`lastPaneSnapshot,
               this`unchangedCount, this`lastActivityTs, this`healedAt, this`captures, db
      ensures DetectStep(db.View(), View(), verdict) == DetectCliExit(oracle, old(db.View()), old(View()), agent, pane, now)
    {
      hide Noted, CleanupAgent, Write, ExitReason, InHealGrace, ShellPrompt, ExitMessage;
      ExitEvidence(agent.name, pane, now);
      var key := "shell_" + agent.name;
      var suppressed := agent.name in healedAt && now - healedAt[agent.name] < HEAL_GRACE_MS;
      Note(ShellCounter, agent.name, ShellCheck(pane, suppressed));
      if suppressed {
        consecutiveFailures := consecutiveFailures - {key};
        return No;
      }
      if !oracle.shellPrompt(pane) && !oracle.exitMessage(pane) {
        consecutiveFailures := consecutiveFailures - {key};
        return No;
      }
      var count := Get(consecutiveFailures, key, 0) + 1;
      consecutiveFailures := consecutiveFailures[key := count];
      if count < 2 {
        return No;
      }
      failureSnapshot := failureSnapshot[agent.name := pane];
      var r := db.UpdateAgentState(
        agent.name, Failed, agent.version, Failure(now, oracle.exitReason(pane)), CliExit, agent, now);
      if r.None? {
        WriteFails(old(db.View()), CliExit, agent, Failed, Failure(now, oracle.exitReason(pane)), now);
        return Conflict;
      }
      Cleanup(agent.name);
      verdict := Yes;
    }

    lemma WriteFails(t: Db, actor: Actor, read: AgentRecord, to: AgentState, extra: Extra, now: int)
      ensures !Write(t, actor, read, to, extra, now).ok ==> Write(t, actor, read, to, extra, now).db == t
    {
    }

    method DetectHealed(agent: AgentRecord, pane: string, now: int) returns (verdict: Verdict)
      modifies this`consecutiveFailures, this`failureSnapshot, this`checks, this`healedAt, db
      ensures DetectStep(db.View(), View(), verdict) == DetectCliHealed(oracle, old(db.View()), old(View()), agent, pane, now)
    {
      hide Noted, CountHeal;
      var key := "heal_" + agent.name;
      ghost var stored := StoredSnapshot(View(), agent.name);
      Note(HealCounter, agent.name, HealCheck(pane, stored));
      if oracle.shellPrompt(pane) {
        consecutiveFailures := consecutiveFailures - {key};
        return No;
      }
      if agent.name !in failureSnapshot {
        failureSnapshot := failureSnapshot[agent.name := pane];
        consecutiveFailures := consecutiveFailures - {key};
        return No;
      }
      if pane == failureSnapshot[agent.name] {
        consecutiveFailures := consecutiveFailures - {key};
        return No;
      }
      if !oracle.alive(pane) {
        consecutiveFailures := consecutiveFailures - {key};
        return No;
      }
      verdict := CountHealed(agent, now);
    }

    /** The tail of `detectCliHealed`, from the second-in-a-row test on. */
    method CountHealed(agent: AgentRecord, now: int) returns (verdict: Verdict)
      modifies this`consecutiveFailures, this`failureSnapshot, this`healedAt, db
      ensures DetectStep(db.View(), View(), verdict) == CountHeal(old(db.View()), old(View()), agent, now)
    {
      hide Write;
      var key := "heal_" + agent.name;
      var count := Get(consecutiveFailures, key, 0) + 1;
      consecutiveFailures := consecutiveFailures[key := count];
      if count < 2 {
        return No;
      }
      consecutiveFailures := consecutiveFailures - {key};
      failureSnapshot := failureSnapshot - {agent.name};
      healedAt := healedAt[agent.name := now];
      var r := db.UpdateAgentState(agent.name, Active, agent.version, ClearFailure, CliHealed, agent, now);
      verdict := if r.Some? then Yes else Conflict;
    }

    method RecordContext(agent: AgentRecord, pane: string, now: int)
      requires forall n :: n in db.rows ==> db.rows[n].name == n
      modifies this`compiledDetection, db
      ensures (db.View(), View()) == RecordContextPercent(oracle, old(db.View()), old(View()), agent, pane, now)
    {
      hide GetDetection;
      var d := GetDetectionConfig(agent.engine);
      var pct := oracle.contextPct(d, agent.engine, pane);
      if pct.None? {
        return;
      }
      if agent.name in db.rows && CanSuspend(db.rows[agent.name]) {
        var latest := db.rows[agent.name];
        var r := db.UpdateAgentState(
          agent.name, latest.state, latest.version, Context(pct.value, now), ContextRead, latest, now);
      }
    }

    method TouchActivity(name: string, now: int)
      requires forall n :: n in db.rows ==> db.rows[n].name == n
      modifies db
      ensures db.View() == TouchLatest(old(db.View()), name, now) && View() == old(View())
    {
      if name in db.rows {
        var latest := db.rows[name];
        var r := db.UpdateAgentState(name, latest.state, latest.version, Touch(now), PollDone, latest, now);
      }
    }

    /** Noting the pane's activity timestamp; true when it has not moved and no patterns apply. */
    method RecordActivity(name: string, act: Activity, hasPatterns: bool) returns (still: bool)
      modifies this`lastActivityTs
      ensures (View(), still) == NoteActivity(old(View()), name, act, hasPatterns)
    {
      match act
      case Unavailable => still := false;
      case At(ts) =>
        still := name in lastActivityTs && lastActivityTs[name] == ts && !hasPatterns;
        lastActivityTs := lastActivityTs[name := ts];
    }

    // ── The stretches ──

    method BeginFastPoll(name: string) returns (next: Option<Poll>)
      ensures next == if name in db.rows && db.rows[name].state == Active && db.rows[name].proxyId.Some?
                      then Some(FastActivity(db.rows[name])) else None
    {
      if name !in db.rows || db.rows[name].state != Active || db.rows[name].proxyId.None? {
        return None;
      }
      next := Some(FastActivity(db.rows[name]));
    }

    method FastPollActivity(agent: AgentRecord, act: Activity, now: int) returns (next: Option<Poll>)
      requires forall n :: n in db.rows ==> db.rows[n].name == n
      modifies this, db
      ensures Stretch(db.View(), View(), next) == AfterFastActivity(oracle, old(db.View()), old(View()), agent, act, now)
    {
      hide GetDetection, NoteActivity, HandleIdleTransitions;
      var d := GetDetectionConfig(agent.engine);
      var still := RecordActivity(agent.name, act, d.Some?);
      if still {
        IdleTransitions(agent, true, now);
        return None;
      }
      next := Some(FastCapture(agent));
    }

    method FastPollCapture(agent: AgentRecord, resp: Response, now: int)
      requires forall n :: n in db.rows ==> db.rows[n].name == n
      modifies this, db
      ensures Stretch(db.View(), View(), None) == AfterFastCapture(oracle, old(db.View()), old(View()), agent, resp, now)
    {
      KeyedAfterCapture(db.View(), View(), agent, resp, now);
      hide CapturePaneOutput, CheckScreenDiff, HandleIdleTransitions;
      var outcome := HandleCapture(agent, resp, now);
      if outcome.Pane? {
        assert Keyed(db.View());
        var isIdle := CheckScreen(agent, outcome.text, now);
        IdleTransitions(agent, isIdle, now);
      }
    }

    ghost predicate Keyed(t: Db) {
      forall n :: n in t.rows ==> t.rows[n].name == n
    }

    lemma KeyedAfterCapture(t: Db, m: Monitor, agent: AgentRecord, resp: Response, now: int)
      requires Keyed(t)
      ensures Keyed(CapturePaneOutput(t, m, agent, resp, now).db)
    {
      hide Noted, Counted, Dropped;
    }

    lemma KeyedAfterExit(t: Db, m: Monitor, agent: AgentRecord, pane: string, now: int)
      requires Keyed(t)
      ensures Keyed(DetectCliExit(oracle, t, m, agent, pane, now).db)
    {
      hide Noted, Counted, Dropped, Evidence, InHealGrace, CleanupAgent, ExitReason;
    }

    lemma KeyedAfterContext(t: Db, m: Monitor, agent: AgentRecord, pane: string, now: int)
      requires Keyed(t)
      ensures Keyed(RecordContextPercent(oracle, t, m, agent, pane, now).0)
    {
      hide GetDetection, ContextPct;
    }

    lemma KeyedAfterIdle(t: Db, m: Monitor, agent: AgentRecord, isIdle: bool, now: int)
      requires Keyed(t)
      ensures Keyed(HandleIdleTransitions(t, m, agent, isIdle, now))
    {
    }

    method BeginFullPoll(name: string) returns (next: Option<Poll>)
      modifies this`compiledDetection
      ensures Stretch(db.View(), View(), next) == BeginFull(oracle, db.View(), old(View()), name)
    {
      hide GetDetection;
      if name !in db.rows || db.rows[name].proxyId.None? || !CanSuspend(db.rows[name]) {
        return None;
      }
      var d := GetDetectionConfig(db.rows[name].engine);
      next := Some(FullActivity(db.rows[name], d.Some?));
    }

    method FullPollActivity(agent: AgentRecord, hasPatterns: bool, act: Activity, now: int) returns (next: Option<Poll>)
      requires forall n :: n in db.rows ==> db.rows[n].name == n
      modifies this, db
      ensures Stretch(db.View(), View(), next) == AfterFullActivity(old(db.View()), old(View()), agent, hasPatterns, act, now)
    {
      hide NoteActivity, HandleIdleTransitions;
      var still := RecordActivity(agent.name, act, hasPatterns);
      if still {
        IdleTransitions(agent, true, now);
        return None;
      }
      next := Some(FullCapture(agent));
    }

    method LivePane(agent: AgentRecord, pane: string, now: int) returns (next: Option<Poll>)
      requires Keyed(db.View())
      modifies this, db
      ensures Stretch(db.View(), View(), next) == AfterLivePane(oracle, old(db.View()), old(View()), agent, pane, now)
    {
      hide RecordContextPercent, CheckScreenDiff, HandleIdleTransitions, TouchLatest;
      KeyedAfterContext(db.View(), View(), agent, pane, now);
      RecordContext(agent, pane, now);
      var isIdle := CheckScreen(agent, pane, now);
      KeyedAfterIdle(db.View(), View(), agent, isIdle, now);
      IdleTransitions(agent, isIdle, now);
      if isIdle {
        return Some(FullFinish(agent.name));
      }
      assert Keyed(db.View());
      TouchActivity(agent.name, now);
      next := None;
    }

    method FullPollCapture(agent: AgentRecord, resp: Response, now: int) returns (next: Option<Poll>)
      requires forall n :: n in db.rows ==> db.rows[n].name == n
      modifies this, db
      ensures Stretch(db.View(), View(), next) == AfterFullCapture(oracle, old(db.View()), old(View()), agent, resp, now)
    {
      hide CapturePaneOutput, DetectCliExit, AfterLivePane;
      KeyedAfterCapture(db.View(), View(), agent, resp, now);
      var outcome := HandleCapture(agent, resp, now);
      if !outcome.Pane? {
        return None;
      }
      KeyedAfterExit(db.View(), View(), agent, outcome.text, now);
      var verdict := DetectExit(agent, outcome.text, now);
      if verdict != No {
        return None;
      }
      next := LivePane(agent, outcome.text, now);
    }

    method BeginFailedPoll(name: string) returns (next: Option<Poll>)
      ensures Stretch(db.View(), View(), next) == BeginFailed(db.View(), View(), name)
    {
      if name !in db.rows || db.rows[name].state != Failed || db.rows[name].proxyId.None? {
        return None;
      }
      next := Some(FailedCapture(db.rows[name]));
    }

    method FailedPollCapture(agent: AgentRecord, resp: Response, now: int)
      modifies this, db
      ensures Stretch(db.View(), View(), None) == AfterFailedCapture(oracle, old(db.View()), old(View()), agent, resp, now)
    {
      hide DetectCliHealed;
      if resp.Answered? {
        var verdict := DetectHealed(agent, resp.data, now);
      }
    }
  }
}
