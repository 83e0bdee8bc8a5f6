/** The event loop that resumes the monitor's polls: every sequence of its calls is a run. */
module HealthLoop {
  import opened Options
  import opened AgentsTable
  import opened HealthSpec
  import opened HealthRuns
  import opened HealthMonitoring

  /** The stretches that are the monitor's own, and the passing of time. */
  predicate Own(e: Event) {
    e.Tick? || e.StartFast? || e.StartFull? || e.StartFailed? || e.ResumeActivity? || e.ResumeCapture? || e.ResumeFinish? ||
    e.Cleanup?
  }

  /** `polls` are the continuations that the source keeps in its pending promises. */
  class EventLoop {
    const monitor: HealthMonitor
    var polls: map<nat, Poll>
    var now: int

    ghost function View(): World
      reads this, monitor, monitor.db
    {
      World(monitor.db.View(), monitor.View(), polls, now)
    }

    constructor (monitor: HealthMonitor)
      ensures this.monitor == monitor && polls == map[] && now == 0
    {
      this.monitor, polls, now := monitor, map[], 0;
    }

    method Keep(id: nat, next: Option<Poll>)
      modifies this`polls
      ensures polls == match next case None => old(polls) - {id} case Some(p) => old(polls)[id := p]
    {
      match next
      case None => polls := polls - {id};
      case Some(p) => polls := polls[id := p];
    }

    method Start(e: Event)
      requires e.StartFast? || e.StartFull? || e.StartFailed?
      modifies this, monitor
      ensures View() == Step(monitor.oracle, old(View()), e)
    {
      hide BeginFull, BeginFailed;
      if e.id in polls {
        return;
      }
      var next;
      match e {
        case StartFast(_, name) => next := monitor.BeginFastPoll(name);
        case StartFull(_, name) => next := monitor.BeginFullPoll(name);
        case StartFailed(_, name) => next := monitor.BeginFailedPoll(name);
      }
      BeginLeavesTable(monitor.oracle, old(monitor.db.View()), old(monitor.View()), e.name);
      assert polls - {e.id} == polls;
      Keep(e.id, next);
    }

    method Resume(e: Event)
      requires (e.ResumeActivity? || e.ResumeCapture? || e.ResumeFinish?) && WorldGood(View())
      modifies this, monitor, monitor.db
      ensures View() == Step(monitor.oracle, old(View()), e)
    {
      hide AfterFastActivity, AfterFullActivity, AfterFastCapture, AfterFullCapture, AfterFailedCapture, TouchLatest, PollGood;
      if e.id !in polls {
        return;
      }
      assert Consistent(monitor.db.View());
      var next := None;
      match (e, polls[e.id]) {
        case (ResumeActivity(_, act), FastActivity(a)) => next := monitor.FastPollActivity(a, act, now);
        case (ResumeActivity(_, act), FullActivity(a, p)) => next := monitor.FullPollActivity(a, p, act, now);
        case (ResumeCapture(_, resp), FastCapture(a)) => monitor.FastPollCapture(a, resp, now);
        case (ResumeCapture(_, resp), FullCapture(a)) => next := monitor.FullPollCapture(a, resp, now);
        case (ResumeCapture(_, resp), FailedCapture(a)) => monitor.FailedPollCapture(a, resp, now);
        case (ResumeFinish(_), FullFinish(name)) => monitor.TouchActivity(name, now);
        case _ => return;
      }
      Keep(e.id, next);
    }

    method Handle(e: Event)
      requires Own(e) && WorldGood(View())
      modifies this, monitor, monitor.db
      ensures View() == Step(monitor.oracle, old(View()), e)
    {
      hide BeginFull, BeginFailed, CleanupAgent, TouchLatest;
      match e
      case Tick(ms) => now := now + ms;
      case Cleanup(name) => monitor.Cleanup(name);
      case StartFast(_, _) => Start(e);
      case StartFull(_, _) => Start(e);
      case StartFailed(_, _) => Start(e);
      case ResumeActivity(_, _) => Resume(e);
      case ResumeCapture(_, _) => Resume(e);
      case ResumeFinish(_) => Resume(e);
    }

    /** The worlds that the calls pass through are a run of `HealthRuns`. */
    method Run(es: seq<Event>) returns (ghost ws: seq<World>)
      requires WorldGood(View()) && forall e :: e in es ==> Own(e)
      modifies this, monitor, monitor.db
      ensures IsRun(monitor.oracle, ws, es) && ws[0] == old(View()) && ws[|es|] == View()
    {
      hide Step, WorldGood, Own;
      ws := [View()];
      for i := 0 to |es|
        invariant IsRun(monitor.oracle, ws, es[..i]) && ws[0] == old(View()) && ws[i] == View()
        invariant WorldGood(View())
      {
        StepKeepsWorld(monitor.oracle, View(), es[i]);
        Handle(es[i]);
        ws := ws + [View()];
        assert es[..i + 1] == es[..i] + [es[i]];
      }
      assert es[..|es|] == es;
    }
  }
}
