/** The `agents` table and its version-checked update. */
module AgentsTable {
  import opened Options

  datatype AgentState = Void | Spawning | Resuming | Suspending | Active | Idle | Suspended | Failed

  /** One row of `agents`, cut down to the columns the health monitor reads or writes.
      `birth` is not a column: it says which INSERT created the row, so that a row deleted and
      created again under the same name (and version 0) can be told apart in statements. No
      modelled operation branches on it. */
  datatype AgentRecord = AgentRecord(
    name: string,
    engine: string,
    state: AgentState,
    proxyId: Option<string>,
    tmuxSession: Option<string>,
    lastActivity: Option<int>,
    lastContextPct: Option<int>,
    failedAt: Option<int>,
    failureReason: Option<string>,
    reloadQueued: bool,
    version: nat,
    birth: nat)

  predicate CanSuspend(a: AgentRecord) {
    a.state == Active || a.state == Idle
  }

  predicate IsRunning(a: AgentRecord) {
    a.state == Active || a.state == Idle || a.state == Spawning || a.state == Resuming
  }

  /** The extra columns that accompany a state write. */
  datatype Extra =
    | Touch(at: int)
    | Context(pct: int, at: int)
    | Failure(at: int, reason: string)
    | ClearFailure
    | Nothing

  function ApplyExtra(row: AgentRecord, extra: Extra): AgentRecord {
    match extra
    case Touch(at) => row.(lastActivity := Some(at))
    case Context(pct, at) => row.(lastContextPct := Some(pct), lastActivity := Some(at))
    case Failure(at, reason) => row.(failedAt := Some(at), failureReason := Some(reason))
    case ClearFailure => row.(failedAt := None, failureReason := None)
    case Nothing => row
  }

  /** Who lands a write. The first seven are the health monitor's own call sites. */
  datatype Actor =
    | IdleDetected | ActivityDetected | CaptureFailed | CliExit | CliHealed | ContextRead | PollDone
    | Background | Delivery | ProxySweep | Outside

  predicate ByMonitor(actor: Actor) {
    actor.IdleDetected? || actor.ActivityDetected? || actor.CaptureFailed? || actor.CliExit? ||
    actor.CliHealed? || actor.ContextRead? || actor.PollDone?
  }

  /** One successful versioned write: `read` is the record whose version was presented. */
  datatype Landed = Landed(
    actor: Actor, read: AgentRecord, birth: nat, before: AgentState, after: AgentState, at: int)

  /** The table, the number of INSERTs so far, and (a history variable) the writes that landed. */
  datatype Db = Db(
    rows: map<string, AgentRecord>,
    detection: map<string, string>,
    births: nat,
    log: seq<Landed>)

  datatype Attempt = Attempt(db: Db, ok: bool)

  /** A row after a landed write, column by column: what the extra names is set, the rest stays. */
  function RowAfter(row: AgentRecord, to: AgentState, extra: Extra): AgentRecord {
    AgentRecord(
      row.name, row.engine, to, row.proxyId, row.tmuxSession,
      match extra { case Touch(at) => Some(at) case Context(_, at) => Some(at) case _ => row.lastActivity },
      if extra.Context? then Some(extra.pct) else row.lastContextPct,
      if extra.Failure? then Some(extra.at) else if extra.ClearFailure? then None else row.failedAt,
      if extra.Failure? then Some(extra.reason) else if extra.ClearFailure? then None else row.failureReason,
      row.reloadQueued, row.version + 1, row.birth)
  }

  /** `updateAgentState` as called with the name and version of a record read earlier. */
  function Write(db: Db, actor: Actor, read: AgentRecord, to: AgentState, extra: Extra, now: int): Attempt {
    if read.name in db.rows && db.rows[read.name].version == read.version then
      var row := db.rows[read.name];
      var next := ApplyExtra(row.(state := to, version := row.version + 1), extra);
      Attempt(
        db.(rows := db.rows[read.name := next],
            log := db.log + [Landed(actor, read, row.birth, row.state, to, now)]),
        true)
    else
      Attempt(db, false)
  }

  /** How many landed writes of the log concern this incarnation of this name. */
  function Writes(log: seq<Landed>, name: string, birth: nat): nat {
    if |log| == 0 then 0
    else
      Writes(log[..|log| - 1], name, birth) +
      (if log[|log| - 1].read.name == name && log[|log| - 1].birth == birth then 1 else 0)
  }

  lemma WritesAppend(log: seq<Landed>, e: Landed, name: string, birth: nat)
    ensures Writes(log + [e], name, birth) ==
            Writes(log, name, birth) + (if e.read.name == name && e.birth == birth then 1 else 0)
  {
    assert (log + [e])[..|log|] == log;
  }

  /** Two logs, one a prefix of the other, with equal counts: no write of that row in between. */
  lemma {:induction false} EqualCountsMeanNoWrite(log: seq<Landed>, k: nat, name: string, birth: nat)
    requires k <= |log|
    ensures Writes(log[..k], name, birth) <= Writes(log, name, birth)
    ensures Writes(log[..k], name, birth) == Writes(log, name, birth) ==>
              forall i :: k <= i < |log| ==> !(log[i].read.name == name && log[i].birth == birth)
  {
    if k < |log| {
      var shorter := log[..|log| - 1];
      EqualCountsMeanNoWrite(shorter, k, name, birth);
      assert shorter[..k] == log[..k];
      forall i | k <= i < |log| && Writes(log[..k], name, birth) == Writes(log, name, birth)
        ensures !(log[i].read.name == name && log[i].birth == birth)
      {
        if i < |log| - 1 { assert shorter[i] == log[i]; }
      }
    } else {
      assert log[..k] == log;
    }
  }

  /** Table consistency: keys match, births are in range, and a row's version counts the writes
      that landed on this incarnation of it. */
  ghost predicate Consistent(db: Db) {
    && (forall n :: n in db.rows ==>
          db.rows[n].name == n && db.rows[n].birth < db.births &&
          db.rows[n].version == Writes(db.log, n, db.rows[n].birth))
    && (forall i :: 0 <= i < |db.log| ==> db.log[i].birth < db.births)
  }

  /** `r` is a record that was read from this table at some earlier point. */
  ghost predicate Known(db: Db, r: AgentRecord) {
    && r.birth < db.births
    && (r.name in db.rows && db.rows[r.name].birth == r.birth ==>
          r.version <= db.rows[r.name].version &&
          (r.version == db.rows[r.name].version ==> r.state == db.rows[r.name].state))
  }

  /** A write keeps the table consistent and keeps every record that was read, read. A write
      whose record is not current is rejected and changes nothing. */
  lemma WriteKeeps(db: Db, actor: Actor, read: AgentRecord, to: AgentState, extra: Extra, now: int)
    requires Consistent(db)
    ensures Consistent(Write(db, actor, read, to, extra, now).db)
    ensures forall r :: Known(db, r) ==> Known(Write(db, actor, read, to, extra, now).db, r)
    ensures read.name !in db.rows || db.rows[read.name].version != read.version ==>
              Write(db, actor, read, to, extra, now) == Attempt(db, false)
  {
    var a := Write(db, actor, read, to, extra, now);
    if a.ok {
      var e := a.db.log[|db.log|];
      forall n | n in a.db.rows
        ensures a.db.rows[n].version == Writes(a.db.log, n, a.db.rows[n].birth)
      {
        WritesAppend(db.log, e, n, a.db.rows[n].birth);
      }
    }
  }

  /** A write lands exactly when the presented version is current; then it replaces that one row and is
      logged once. */
  lemma WriteOutcome(db: Db, actor: Actor, read: AgentRecord, to: AgentState, extra: Extra, now: int)
    ensures var a := Write(db, actor, read, to, extra, now);
            && (a.ok <==> read.name in db.rows && db.rows[read.name].version == read.version)
            && (!a.ok ==> a.db == db)
            && (a.ok ==>
                  var row := db.rows[read.name];
                  && a.db.rows == db.rows[read.name := RowAfter(row, to, extra)]
                  && a.db.log == db.log + [Landed(actor, read, row.birth, row.state, to, now)]
                  && a.db.detection == db.detection && a.db.births == db.births)
  {
  }

  /** The table as the orchestrator holds it; `log` is a history variable. */
  class AgentTable {
    var rows: map<string, AgentRecord>
    var detection: map<string, string>
    ghost var births: nat
    ghost var log: seq<Landed>

    ghost function View(): Db
      reads this
    {
      Db(rows, detection, births, log)
    }

    constructor ()
      ensures View() == Db(map[], map[], 0, []) && Consistent(View())
    {
      rows, detection, births, log := map[], map[], 0, [];
    }

    /** The row after the update, or None where the source throws (no such agent, or a version
        conflict); then nothing has changed. */
    method UpdateAgentState(
      name: string, state: AgentState, expectedVersion: nat, extra: Extra,
      ghost actor: Actor, ghost read: AgentRecord, ghost now: int)
      returns (r: Option<AgentRecord>)
      requires read.name == name && read.version == expectedVersion
      modifies this
      ensures Attempt(View(), r.Some?) == Write(old(View()), actor, read, state, extra, now)
      ensures r.Some? ==> name in rows && r.value == rows[name]
      ensures r.None? <==> name !in old(rows) || old(rows)[name].version != expectedVersion
      ensures r.None? ==> View() == old(View())
      ensures r.Some? ==> rows == old(rows)[name := r.value] && r.value == RowAfter(old(rows)[name], state, extra)
      ensures detection == old(detection)
    {
      if name !in rows {
        return None;
      }
      var agent := rows[name];
      if agent.version != expectedVersion {
        return None;
      }
      var next := ApplyExtra(agent.(state := state, version := agent.version + 1), extra);
      rows := rows[name := next];
      log := log + [Landed(actor, read, agent.birth, agent.state, state, now)];
      return Some(next);
    }
  }
}
