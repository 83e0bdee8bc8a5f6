/** A failed agent whose pane no longer moves: when its last pane can pass for a sign of life. */
module FrozenPanes {
  import opened Options
  import opened AgentsTable
  import opened HealthSpec
  import opened HealthRuns
  import opened HealthProperties

  // ── one heal check ──

  /** One heal check of an agent whose failure snapshot is stored. */
  lemma OneHealCheck(o: Oracle, db: Db, m: Monitor, agent: AgentRecord, pane: string, now: int)
    requires agent.name in m.failureSnapshot
    ensures var e := DetectCliHealed(o, db, m, agent, pane, now);
            var evidence := pane != m.failureSnapshot[agent.name] && !ShellPrompt(o, pane) && Alive(o, pane);
            var count := CountOf(m.counters, HealCounter, agent.name);
            && (e.verdict != No <==> evidence && count >= 1)
            && (e.verdict == No ==>
                  e.db == db && e.m.failureSnapshot == m.failureSnapshot &&
                  CountOf(e.m.counters, HealCounter, agent.name) == (if evidence then count + 1 else 0))
  {
    hide Write, Key;
  }

  // ── what a failure stores ──

  /** An exit verdict stores the pane itself. A capture failure stores the trimmed snapshot of the last
      diff, or the empty text if none was made since the last cleanup. */
  lemma WhatFailureStores(o: Oracle, db: Db, m: Monitor, agent: AgentRecord, pane: string, resp: Response, now: int)
    ensures var e := DetectCliExit(o, db, m, agent, pane, now);
            e.verdict == Yes ==>
              StoredSnapshot(e.m, agent.name) == Some(pane) && Key(HealCounter, agent.name) !in e.m.counters.consecutiveFailures
    ensures var c := CapturePaneOutput(db, m, agent, resp, now);
            c.db != db ==> StoredSnapshot(c.m, agent.name) == Some(Get(m.screen.lastPaneSnapshot, agent.name, ""))
  {
    hide Noted, Evidence, InHealGrace, ExitReason, CleanScreen;
  }

  // ── over runs ──

  /** Every capture of `n` that is answered gives the pane `p`. */
  predicate Frozen(w: World, e: Event, n: string, p: string) {
    e.ResumeCapture? && e.id in w.polls && !w.polls[e.id].FullFinish? && w.polls[e.id].agent.name == n && e.resp.Answered? ==>
      e.resp.data == p
  }

  /** A refused capture of `n`, the third in a row, that puts another snapshot in the place of `p`. The
      source stores it before its versioned write, so it does so even if that write is rejected. */
  predicate Restores(w: World, e: Event, n: string, p: string) {
    && e.ResumeCapture? && e.id in w.polls && (w.polls[e.id].FastCapture? || w.polls[e.id].FullCapture?)
    && w.polls[e.id].agent.name == n && e.resp.Refused?
    && CountOf(w.m.counters, CaptureCounter, n) + 1 >= FAILURE_THRESHOLD
    && Get(w.m.screen.lastPaneSnapshot, n, "") != p
  }

  lemma CaptureStores(db: Db, m: Monitor, a: AgentRecord, resp: Response, now: int, n: string)
    ensures StoredSnapshot(CapturePaneOutput(db, m, a, resp, now).m, n) ==
            if a.name == n && resp.Refused? && CountOf(m.counters, CaptureCounter, n) + 1 >= FAILURE_THRESHOLD
            then Some(Get(m.screen.lastPaneSnapshot, n, "")) else StoredSnapshot(m, n)
  {
    hide Write;
  }

  lemma ExitStores(o: Oracle, db: Db, m: Monitor, a: AgentRecord, pane: string, now: int, n: string)
    ensures var e := DetectCliExit(o, db, m, a, pane, now);
            StoredSnapshot(e.m, n) == StoredSnapshot(m, n) || (a.name == n && StoredSnapshot(e.m, n) == Some(pane))
  {
    hide Evidence, InHealGrace, ExitReason, CountExit, Noted, Dropped, Key;
    var check := ShellCheck(pane, InHealGrace(m, a.name, now));
    if Evidence(o, check) {
      var m1 := m.(counters := Noted(m.counters, ShellCounter, a.name, check));
      CountStores(db, m1, a, pane, ExitReason(o, pane), now, n);
    }
  }

  lemma CountStores(db: Db, m: Monitor, a: AgentRecord, pane: string, reason: string, now: int, n: string)
    ensures var e := CountExit(db, m, a, pane, reason, now);
            StoredSnapshot(e.m, n) == StoredSnapshot(m, n) || (a.name == n && StoredSnapshot(e.m, n) == Some(pane))
  {
    hide Write, CleanScreen, CleanCounters, Counted, Key, Get;
  }

  lemma HealStores(o: Oracle, db: Db, m: Monitor, a: AgentRecord, pane: string, now: int, n: string)
    requires a.name == n ==> StoredSnapshot(m, n) == Some(pane)
    ensures var e := DetectCliHealed(o, db, m, a, pane, now);
            StoredSnapshot(e.m, n) == StoredSnapshot(m, n) && (a.name == n ==> e.verdict == No)
  {
    hide Write, Noted;
  }

  lemma CaptureStepStores(o: Oracle, w: World, id: nat, resp: Response, n: string, p: string)
    requires StoredSnapshot(w.m, n) == Some(p) && Frozen(w, ResumeCapture(id, resp), n, p)
    ensures StoredSnapshot(Step(o, w, ResumeCapture(id, resp)).m, n) == Some(p) <==> !Restores(w, ResumeCapture(id, resp), n, p)
  {
    hide CapturePaneOutput, DetectCliExit, DetectCliHealed, CheckScreenDiff, HandleIdleTransitions, AfterLivePane, CountOf;
    if id in w.polls {
      match w.polls[id]
      case FastCapture(a) =>
        CaptureStores(w.db, w.m, a, resp, w.now, n);
        var c := CapturePaneOutput(w.db, w.m, a, resp, w.now);
        RefusedIsNoPane(w.db, w.m, a, resp, w.now);
        if c.outcome.Pane? { DiffFrame(o, c.db, c.m, a, c.outcome.text, w.now); }
      case FullCapture(a) =>
        CaptureStores(w.db, w.m, a, resp, w.now, n);
        var c := CapturePaneOutput(w.db, w.m, a, resp, w.now);
        RefusedIsNoPane(w.db, w.m, a, resp, w.now);
        if c.outcome.Pane? {
          ExitStores(o, c.db, c.m, a, c.outcome.text, w.now, n);
          var e := DetectCliExit(o, c.db, c.m, a, c.outcome.text, w.now);
          LivePaneFrame(o, e.db, e.m, a, c.outcome.text, w.now);
        }
      case FailedCapture(a) =>
        if resp.Answered? { HealStores(o, w.db, w.m, a, resp.data, w.now, n); }
      case _ =>
    }
  }

  lemma OtherStepStores(o: Oracle, w: World, e: Event)
    requires !e.ResumeCapture?
    ensures Step(o, w, e).m.failureSnapshot == w.m.failureSnapshot
  {
    hide Step;
    if e.Cleanup? {
      CleanupStores(o, w, e.name);
    } else {
      OtherStepFrame(o, w, e);
    }
  }

  lemma CleanupStores(o: Oracle, w: World, name: string)
    ensures Step(o, w, Cleanup(name)).m.failureSnapshot == w.m.failureSnapshot
  {
    hide CleanCounters, CleanScreen;
  }

  /** While the pane is frozen at the stored snapshot, the snapshot stays, unless a third refusal
      replaces it. */
  lemma SnapshotStaysIff(o: Oracle, w: World, e: Event, n: string, p: string)
    requires StoredSnapshot(w.m, n) == Some(p) && Frozen(w, e, n, p)
    ensures StoredSnapshot(Step(o, w, e).m, n) == Some(p) <==> !Restores(w, e, n, p)
  {
    hide Step;
    if e.ResumeCapture? {
      CaptureStepStores(o, w, e.id, e.resp, n, p);
    } else {
      OtherStepStores(o, w, e);
    }
  }

  /** Only a failed agent's poll whose heal check says yes lands a heal. */
  lemma WhoHeals(o: Oracle, w: World, e: Event, n: string)
    requires WorldGood(w) && Grew(w.db, Step(o, w, e).db, CliHealed, n)
    ensures e.ResumeCapture? && e.id in w.polls && w.polls[e.id].FailedCapture? && w.polls[e.id].agent.name == n
    ensures e.resp.Answered? && HealVerdict(o, w, w.polls[e.id].agent, e.resp.data) == Yes
  {
    hide Step, Times, HealVerdict, WorldGood;
    if e.ResumeCapture? {
      if e.id in w.polls {
        CaptureWriteTimes(o, w, e.id, e.resp, CliHealed, n);
      } else {
        NoPollNoStep(o, w, e);
      }
    } else if e.ResumeActivity? {
      ActivityTimes(o, w, e.id, e.act, CliHealed, n);
    } else {
      OutsideTimes(o, w, e, CliHealed, n);
    }
  }

  lemma NoPollNoStep(o: Oracle, w: World, e: Event)
    requires e.ResumeCapture? && e.id !in w.polls
    ensures Step(o, w, e) == w
  {
  }

  /** How many heals of `n` have landed. */
  function Heals(w: World, n: string): nat {
    |Times(w.db.log, CliHealed, n)|
  }

  lemma FrozenStep(o: Oracle, w: World, e: Event, n: string, p: string)
    requires WorldGood(w) && Frozen(w, e, n, p)
    requires StoredSnapshot(w.m, n) == Some(p) || ShellPrompt(o, p) || !Alive(o, p)
    ensures Heals(Step(o, w, e), n) <= Heals(w, n)
  {
    hide Step, WorldGood, Times;
    if Grew(w.db, Step(o, w, e).db, CliHealed, n) {
      WhoHeals(o, w, e, n);
      VerdictNeedsLife(o, w.db, w.m, w.polls[e.id].agent, p, w.now);
    }
  }

  lemma VerdictNeedsLife(o: Oracle, db: Db, m: Monitor, a: AgentRecord, p: string, now: int)
    ensures DetectCliHealed(o, db, m, a, p, now).verdict == Yes ==>
              StoredSnapshot(m, a.name) != Some(p) && !ShellPrompt(o, p) && Alive(o, p)
  {
    hide Write, Noted, CountHeal;
  }

  /**
   * From the moment the snapshot of an agent is its pane `p`, as after an exit verdict, and while every
   * answered capture gives `p`: no heal lands before a third refusal has replaced the snapshot.
   */
  lemma {:induction false} FrozenPaneNeverHeals(o: Oracle, ws: seq<World>, es: seq<Event>, i: nat, j: nat, n: string, p: string)
    requires IsRun(o, ws, es) && WorldGood(ws[0]) && i <= j < |ws| && StoredSnapshot(ws[i].m, n) == Some(p)
    requires forall k :: i <= k < j ==> Frozen(ws[k], es[k], n, p) && !Restores(ws[k], es[k], n, p)
    ensures StoredSnapshot(ws[j].m, n) == Some(p) && Heals(ws[j], n) <= Heals(ws[i], n)
    decreases j
  {
    hide Step, WorldGood, Frozen, Restores, Heals, StoredSnapshot;
    if i < j {
      FrozenPaneNeverHeals(o, ws, es, i, j - 1, n, p);
      RunKeepsWorld(o, ws, es, 0, j - 1);
      SnapshotStaysIff(o, ws[j - 1], es[j - 1], n, p);
      FrozenStep(o, ws[j - 1], es[j - 1], n, p);
    }
  }

  /** A frozen pane with a shell prompt or without a live sign never heals, whatever is stored. */
  lemma {:induction false} DeadPaneNeverHeals(o: Oracle, ws: seq<World>, es: seq<Event>, i: nat, j: nat, n: string, p: string)
    requires IsRun(o, ws, es) && WorldGood(ws[0]) && i <= j < |ws| && (ShellPrompt(o, p) || !Alive(o, p))
    requires forall k :: i <= k < j ==> Frozen(ws[k], es[k], n, p)
    ensures Heals(ws[j], n) <= Heals(ws[i], n)
    decreases j
  {
    hide Step, WorldGood, Frozen, Heals;
    if i < j {
      DeadPaneNeverHeals(o, ws, es, i, j - 1, n, p);
      RunKeepsWorld(o, ws, es, 0, j - 1);
      FrozenStep(o, ws[j - 1], es[j - 1], n, p);
    }
  }

  // ── two heal polls, whatever lies between them ──

  /** The step answers no capture of `n` and cleans up after no one but other agents of `names`. */
  predicate Spares(w: World, e: Event, n: string, names: set<string>) {
    && (e.ResumeCapture? && e.id in w.polls && !w.polls[e.id].FullFinish? ==> w.polls[e.id].agent.name != n)
    && (e.Cleanup? ==> e.name in names && e.name != n)
  }

  ghost predicate SameKey(k: Counters, k': Counters, key: string) {
    Get(k'.consecutiveFailures, key, 0) == Get(k.consecutiveFailures, key, 0)
  }

  /** A counter of `n` is none of the three of another agent. */
  lemma ForeignKey(names: set<string>, n: string, other: string)
    requires Separate(names) && n in names && other in names && other != n
    ensures forall c :: Key(HealCounter, n) != Key(c, other)
  {
  }

  lemma CaptureSpares(db: Db, m: Monitor, a: AgentRecord, resp: Response, now: int, key: string)
    requires forall c :: key != Key(c, a.name)
    ensures SameKey(m.counters, CapturePaneOutput(db, m, a, resp, now).m.counters, key)
  {
    hide Write;
    assert a.name == Key(CaptureCounter, a.name);
  }

  lemma CleaningSpares(k: Counters, name: string, key: string)
    requires forall c :: key != Key(c, name)
    ensures SameKey(k, CleanCounters(k, name), key)
  {
    hide Key;
  }

  lemma ExitSpares(o: Oracle, db: Db, m: Monitor, a: AgentRecord, pane: string, now: int, key: string)
    requires forall c :: key != Key(c, a.name)
    ensures SameKey(m.counters, DetectCliExit(o, db, m, a, pane, now).m.counters, key)
  {
    hide Evidence, InHealGrace, ExitReason, CountExit, CleanCounters, Key;
    var check := ShellCheck(pane, InHealGrace(m, a.name, now));
    if Evidence(o, check) {
      var k := Noted(m.counters, ShellCounter, a.name, check);
      ExitCounters(m.counters, db, m.(counters := k), a, pane, ExitReason(o, pane), check, now);
      CleaningSpares(Counted(k, Key(ShellCounter, a.name), CountOf(m.counters, ShellCounter, a.name) + 1), a.name, key);
    }
  }

  lemma HealSpares(o: Oracle, db: Db, m: Monitor, a: AgentRecord, pane: string, now: int, key: string)
    requires forall c :: key != Key(c, a.name)
    ensures SameKey(m.counters, DetectCliHealed(o, db, m, a, pane, now).m.counters, key)
  {
    hide Write, Evidence, Key, ShellPrompt, StoredSnapshot, CountHeal;
    var k := Noted(m.counters, HealCounter, a.name, HealCheck(pane, StoredSnapshot(m, a.name)));
    HealCountSpares(db, m.(counters := k), a, now, key);
  }

  lemma HealCountSpares(db: Db, m: Monitor, a: AgentRecord, now: int, key: string)
    requires key != Key(HealCounter, a.name)
    ensures SameKey(m.counters, CountHeal(db, m, a, now).m.counters, key)
  {
    hide Write, Key;
  }

  lemma HealStoresOthers(o: Oracle, db: Db, m: Monitor, a: AgentRecord, pane: string, now: int, n: string)
    requires a.name != n
    ensures StoredSnapshot(DetectCliHealed(o, db, m, a, pane, now).m, n) == StoredSnapshot(m, n)
  {
    hide Write, Noted, Evidence;
  }

  lemma SparingStep(o: Oracle, w: World, e: Event, names: set<string>, n: string)
    requires Separate(names) && PollsWithin(w, names) && n in names && Spares(w, e, n, names)
    ensures var w' := Step(o, w, e);
            SameKey(w.m.counters, w'.m.counters, Key(HealCounter, n)) && StoredSnapshot(w'.m, n) == StoredSnapshot(w.m, n)
  {
    hide Separate, PollsWithin, Step, Key;
    if e.Cleanup? {
      CleanupSpares(o, w, e.name, names, n);
    } else if e.ResumeCapture? {
      SparingCapture(o, w, e.id, e.resp, names, n);
    } else {
      OtherStepFrame(o, w, e);
    }
  }

  lemma CleanupSpares(o: Oracle, w: World, name: string, names: set<string>, n: string)
    requires Separate(names) && n in names && name in names && name != n
    ensures var w' := Step(o, w, Cleanup(name));
            SameKey(w.m.counters, w'.m.counters, Key(HealCounter, n)) && StoredSnapshot(w'.m, n) == StoredSnapshot(w.m, n)
  {
    hide Separate, Key, CleanCounters, CleanScreen;
    ForeignKey(names, n, name);
    CleaningSpares(w.m.counters, name, Key(HealCounter, n));
  }

  lemma SparingCapture(o: Oracle, w: World, id: nat, resp: Response, names: set<string>, n: string)
    requires Separate(names) && PollsWithin(w, names) && n in names && Spares(w, ResumeCapture(id, resp), n, names)
    ensures var w' := Step(o, w, ResumeCapture(id, resp));
            SameKey(w.m.counters, w'.m.counters, Key(HealCounter, n)) && StoredSnapshot(w'.m, n) == StoredSnapshot(w.m, n)
  {
    hide CapturePaneOutput, DetectCliExit, DetectCliHealed, CheckScreenDiff, HandleIdleTransitions, AfterLivePane, Separate, Key;
    if id in w.polls && !w.polls[id].FullFinish? {
      var a, key := w.polls[id].agent, Key(HealCounter, n);
      ForeignKey(names, n, a.name);
      CaptureStores(w.db, w.m, a, resp, w.now, n);
      RefusedIsNoPane(w.db, w.m, a, resp, w.now);
      CaptureSpares(w.db, w.m, a, resp, w.now, key);
      var c := CapturePaneOutput(w.db, w.m, a, resp, w.now);
      if resp.Answered? {
        match w.polls[id]
        case FastCapture(_) => DiffFrame(o, c.db, c.m, a, resp.data, w.now);
        case FullCapture(_) =>
          ExitStores(o, c.db, c.m, a, resp.data, w.now, n);
          ExitSpares(o, c.db, c.m, a, resp.data, w.now, key);
          var e := DetectCliExit(o, c.db, c.m, a, resp.data, w.now);
          LivePaneFrame(o, e.db, e.m, a, resp.data, w.now);
        case FailedCapture(_) =>
          HealSpares(o, w.db, w.m, a, resp.data, w.now, key);
          HealStoresOthers(o, w.db, w.m, a, resp.data, w.now, n);
        case _ =>
      }
    }
  }

  lemma {:induction false} SparingRun(o: Oracle, ws: seq<World>, es: seq<Event>, i: nat, j: nat, names: set<string>, n: string)
    requires IsRun(o, ws, es) && i <= j < |ws| && WorldGood(ws[0]) && Separate(names) && n in names && PollsWithin(ws[0], names)
    requires forall k :: 0 <= k < |es| ==> EventWithin(es[k], names)
    requires forall k :: i <= k < j ==> Spares(ws[k], es[k], n, names)
    ensures CountOf(ws[j].m.counters, HealCounter, n) == CountOf(ws[i].m.counters, HealCounter, n)
    ensures StoredSnapshot(ws[j].m, n) == StoredSnapshot(ws[i].m, n)
    decreases j
  {
    hide Step, WorldGood, Separate, PollsWithin, Spares, EventWithin, StoredSnapshot, Key;
    if i < j {
      SparingRun(o, ws, es, i, j - 1, names, n);
      RunStaysWithin(o, ws, es, j - 1, names);
      SparingStep(o, ws[j - 1], es[j - 1], names, n);
    }
  }

  lemma {:induction false} RunStaysWithin(o: Oracle, ws: seq<World>, es: seq<Event>, i: nat, names: set<string>)
    requires IsRun(o, ws, es) && i < |ws| && WorldGood(ws[0]) && PollsWithin(ws[0], names)
    requires forall k :: 0 <= k < |es| ==> EventWithin(es[k], names)
    ensures PollsWithin(ws[i], names)
  {
    hide Step, WorldGood, PollsWithin, EventWithin;
    if i > 0 {
      RunStaysWithin(o, ws, es, i - 1, names);
      RunKeepsWorld(o, ws, es, 0, i - 1);
      StepStaysWithin(o, ws[i - 1], es[i - 1], names);
    }
  }

  /** The step answers a failed-agent poll of `n` with the pane `p`. */
  predicate HealPoll(w: World, e: Event, n: string, p: string) {
    e.ResumeCapture? && e.resp == Answered(p) && e.id in w.polls && w.polls[e.id].FailedCapture? && w.polls[e.id].agent.name == n
  }

  /**
   * Two answered heal polls of an agent, anything happening between them that answers no other capture
   * of it: the first does not heal, and the second does exactly when the pane differs from the stored
   * snapshot, shows no shell prompt and carries a live sign.
   */
  lemma FrozenPaneHealsIff(o: Oracle, ws: seq<World>, es: seq<Event>, i: nat, j: nat, names: set<string>, n: string, p: string)
    requires IsRun(o, ws, es) && i < j < |es| && WorldGood(ws[0]) && Separate(names) && n in names && PollsWithin(ws[0], names)
    requires forall k :: 0 <= k < |es| ==> EventWithin(es[k], names)
    requires forall k :: i < k < j ==> Spares(ws[k], es[k], n, names)
    requires HealPoll(ws[i], es[i], n, p) && HealPoll(ws[j], es[j], n, p)
    requires n in ws[i].m.failureSnapshot && CountOf(ws[i].m.counters, HealCounter, n) == 0
    ensures HealVerdict(o, ws[i], ws[i].polls[es[i].id].agent, p) == No
    ensures HealVerdict(o, ws[j], ws[j].polls[es[j].id].agent, p) != No <==>
              p != ws[i].m.failureSnapshot[n] && !ShellPrompt(o, p) && Alive(o, p)
  {
    hide Separate, WorldGood, PollsWithin, Spares, EventWithin, Step, DetectCliHealed, Key;
    var a, b := ws[i].polls[es[i].id].agent, ws[j].polls[es[j].id].agent;
    OneHealCheck(o, ws[i].db, ws[i].m, a, p, ws[i].now);
    HealPollStep(o, ws[i], es[i], n, p);
    SparingRun(o, ws, es, i + 1, j, names, n);
    OneHealCheck(o, ws[j].db, ws[j].m, b, p, ws[j].now);
  }

  lemma HealPollStep(o: Oracle, w: World, e: Event, n: string, p: string)
    requires HealPoll(w, e, n, p)
    ensures Step(o, w, e).m == DetectCliHealed(o, w.db, w.m, w.polls[e.id].agent, p, w.now).m
  {
    hide DetectCliHealed;
  }

  lemma ExitStoresItsPane(o: Oracle, w: World, e: Event, n: string)
    requires WorldGood(w) && Grew(w.db, Step(o, w, e).db, CliExit, n)
    ensures e.ResumeCapture? && e.id in w.polls && !w.polls[e.id].FullFinish? && w.polls[e.id].agent.name == n && e.resp.Answered?
    ensures StoredSnapshot(Step(o, w, e).m, n) == Some(e.resp.data)
  {
    hide Times, WorldGood, CapturePaneOutput, DetectCliExit, AfterLivePane, AfterFastCapture, AfterFailedCapture;
    hide AfterFastActivity, AfterFullActivity, BeginFull, TouchLatest, Write, CleanupAgent;
    if e.ResumeCapture? {
      if e.id in w.polls {
        CaptureWriteTimes(o, w, e.id, e.resp, CliExit, n);
        var a := w.polls[e.id].agent;
        RefusedIsNoPane(w.db, w.m, a, e.resp, w.now);
        CaptureFrame(w.db, w.m, a, e.resp, w.now);
        var c := CapturePaneOutput(w.db, w.m, a, e.resp, w.now);
        WhatFailureStores(o, w.db, c.m, a, e.resp.data, e.resp, w.now);
      }
    } else if e.ResumeActivity? {
      ActivityTimes(o, w, e.id, e.act, CliExit, n);
    } else {
      OutsideTimes(o, w, e, CliExit, n);
    }
  }

  /** After an exit verdict, a pane that stays what it was heals only once a third refusal has
      replaced the snapshot, and only if it shows a live sign and no prompt. */
  lemma FrozenAfterExit(o: Oracle, ws: seq<World>, es: seq<Event>, i: nat, j: nat, n: string, p: string)
    requires IsRun(o, ws, es) && WorldGood(ws[0]) && i < j < |ws| && Grew(ws[i].db, ws[i + 1].db, CliExit, n)
    requires forall k :: i <= k < j ==> Frozen(ws[k], es[k], n, p)
    requires Heals(ws[j], n) > Heals(ws[i + 1], n)
    ensures !ShellPrompt(o, p) && Alive(o, p) && exists k :: i < k < j && Restores(ws[k], es[k], n, p)
  {
    hide Step, WorldGood, Restores, Heals, StoredSnapshot;
    RunKeepsWorld(o, ws, es, 0, i);
    ExitStoresItsPane(o, ws[i], es[i], n);
    if forall k :: i < k < j ==> !Restores(ws[k], es[k], n, p) {
      FrozenPaneNeverHeals(o, ws, es, i + 1, j, n, p);
    }
    if ShellPrompt(o, p) || !Alive(o, p) {
      DeadPaneNeverHeals(o, ws, es, i + 1, j, n, p);
    }
  }
}
