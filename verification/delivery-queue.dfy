/** The pending-message table and the dispatcher that takes rows from it. */
module DeliveryQueue {
  import opened Options

  datatype Status = Pending | Delivered | Failed

  datatype Row = Row(source: Option<string>, target: string, envelope: string, status: Status, retries: nat,
                     error: Option<string>, lastAttempt: Option<int>, nextAttempt: Option<int>, deliveredAt: Option<int>)

  /** `nextId` is the autoincrement counter: ids are never used again. */
  datatype Table = Table(rows: map<int, Row>, nextId: int)

  const MAX_DELIVERY_RETRIES: nat := 5
  const STALE_TIMEOUT: int := 60
  const STALE_ERROR := "Delivery attempt timed out"
  const WITHDRAWN := "Withdrawn by sender"

  function Pow2(k: nat): (p: nat)
    ensures p >= 1
  {
    if k == 0 then 1 else 2 * Pow2(k - 1)
  }

  // ── the statements ──

  function Enqueue(t: Table, source: Option<string>, target: string, envelope: string): Table {
    Table(t.rows[t.nextId := Row(source, target, envelope, Pending, 0, None, None, None, None)], t.nextId + 1)
  }

  predicate Due(r: Row, agent: string, now: int) {
    r.target == agent && r.status == Pending && (r.nextAttempt.Some? ==> r.nextAttempt.value <= now)
  }

  function Started(r: Row, now: int): Row {
    r.(lastAttempt := Some(now))
  }

  function Sent(r: Row, now: int): Row {
    r.(status := Delivered, deliveredAt := Some(now))
  }

  function Missed(r: Row, error: string, now: int): Row {
    var retries := r.retries + 1;
    if retries >= MAX_DELIVERY_RETRIES then
      r.(status := Failed, retries := retries, error := Some(error))
    else
      r.(retries := retries, error := Some(error), nextAttempt := Some(now + 30 * Pow2(retries - 1)))
  }

  predicate IsStale(r: Row, timeout: int, now: int) {
    r.status == Pending && r.lastAttempt.Some? && r.deliveredAt.None? && now - r.lastAttempt.value > timeout
  }

  function Revived(r: Row, now: int): Row {
    r.(retries := r.retries + 1, error := Some(STALE_ERROR), nextAttempt := Some(now + 30))
  }

  function Cancelled(r: Row): Row {
    if r.status == Pending then r.(status := Failed, error := Some(WITHDRAWN)) else r
  }

  /** An `UPDATE … WHERE id = ?`: nothing happens when the row is gone. */
  function Put(t: Table, id: int, f: Row -> Row): Table {
    if id in t.rows then t.(rows := t.rows[id := f(t.rows[id])]) else t
  }

  function ResetStale(t: Table, timeout: int, now: int): Table {
    t.(rows := map id | id in t.rows :: if IsStale(t.rows[id], timeout, now) then Revived(t.rows[id], now) else t.rows[id])
  }

  predicate Clears(r: Row, agent: string) {
    r.target == agent && r.source.None? && r.status == Pending
  }

  function Clear(t: Table, agent: string): Table {
    t.(rows := map id | id in t.rows && !Clears(t.rows[id], agent) :: t.rows[id])
  }

  /** The first of the deliverable rows, in id order. */
  ghost predicate IsHead(t: Table, agent: string, now: int, id: int) {
    && id in t.rows && Due(t.rows[id], agent, now)
    && forall k :: k in t.rows && Due(t.rows[k], agent, now) ==> id <= k
  }

  ghost predicate TableGood(t: Table) {
    forall id :: id in t.rows ==> id < t.nextId
  }

  // ── the dispatcher: one delivery in flight for each agent ──

  datatype World = World(table: Table, flight: map<string, int>, now: int)

  datatype Event =
    | Queue(source: Option<string>, target: string, envelope: string)
    | Take(agent: string, id: int, at: int)
    | Finish(agent: string, error: Option<string>, at: int)
    | Stale(at: int)
    | Withdraw(id: int)
    | Drop(agent: string)
    | Restart

  function Finished(w: World, agent: string, error: Option<string>, at: int): World
    requires agent in w.flight
  {
    var id := w.flight[agent];
    var table :=
      match error
      case Some(e) => Put(w.table, id, r => Missed(r, e, at))
      case None => Put(w.table, id, r => Sent(r, at));
    World(table, w.flight - {agent}, at)
  }

  ghost predicate Step(w: World, e: Event, w': World) {
    match e
    case Queue(source, target, envelope) => w' == w.(table := Enqueue(w.table, source, target, envelope))
    case Take(agent, id, at) =>
      && at >= w.now && agent !in w.flight && IsHead(w.table, agent, at, id)
      && w' == World(Put(w.table, id, r => Started(r, at)), w.flight[agent := id], at)
    case Finish(agent, error, at) => at >= w.now && agent in w.flight && w' == Finished(w, agent, error, at)
    case Stale(at) => at >= w.now && w' == w.(table := ResetStale(w.table, STALE_TIMEOUT, at), now := at)
    case Withdraw(id) => w' == w.(table := Put(w.table, id, r => Cancelled(r)))
    case Drop(agent) => w' == w.(table := Clear(w.table, agent))
    case Restart => w' == w.(flight := map[])
  }

  /** Ids in flight are old ids, and belong to the agent they are in flight for. */
  ghost predicate Good(w: World) {
    && TableGood(w.table)
    && forall a :: a in w.flight ==>
        w.flight[a] < w.table.nextId && (w.flight[a] in w.table.rows ==> w.table.rows[w.flight[a]].target == a)
  }

  /** What one step may do to one row. */
  ghost predicate RowStep(t: Table, t': Table, id: int) {
    && t.nextId <= t'.nextId
    && (id in t'.rows && id < t.nextId ==>
          id in t.rows && t'.rows[id].target == t.rows[id].target && t'.rows[id].retries >= t.rows[id].retries
          && (t.rows[id].status != Pending ==> t'.rows[id].status != Pending))
    && (id in t.rows && id !in t'.rows ==> t.rows[id].status == Pending)
  }

  lemma StepMovesRow(w: World, e: Event, w': World, id: int)
    requires Good(w) && Step(w, e, w')
    ensures RowStep(w.table, w'.table, id)
  {
    hide IsHead, Pow2;
  }

  lemma StepKeepsGood(w: World, e: Event, w': World)
    requires Good(w) && Step(w, e, w')
    ensures Good(w') && w.now <= w'.now
  {
    hide Pow2;
    forall id ensures RowStep(w.table, w'.table, id) {
      StepMovesRow(w, e, w', id);
    }
  }

  // ── runs ──

  ghost predicate IsRun(ws: seq<World>, es: seq<Event>) {
    && |ws| == |es| + 1
    && Good(ws[0])
    && forall i :: 0 <= i < |es| ==> Step(ws[i], es[i], ws[i + 1])
  }

  lemma {:induction false} RunStaysGood(ws: seq<World>, es: seq<Event>)
    requires IsRun(ws, es)
    ensures forall i :: 0 <= i < |ws| ==> Good(ws[i])
  {
    hide Good, Step;
    if |es| > 0 {
      var n := |es| - 1;
      RunStaysGood(ws[..|es|], es[..n]);
      StepKeepsGood(ws[..|es|][n], es[n], ws[n + 1]);
    }
  }

  /**
   * A row that has left 'pending' is never deleted and never pending again; the retry count of a row
   * never falls.
   */
  lemma {:induction false} NeverPendingAgain(ws: seq<World>, es: seq<Event>, i: nat, j: nat, id: int)
    requires IsRun(ws, es) && i <= j <= |es| && id in ws[i].table.rows
    ensures id in ws[j].table.rows ==> ws[j].table.rows[id].retries >= ws[i].table.rows[id].retries
    ensures ws[i].table.rows[id].status != Pending ==>
      id in ws[j].table.rows && ws[j].table.rows[id].status != Pending
    ensures id < ws[j].table.nextId
    decreases j - i
  {
    hide Step;
    RunStaysGood(ws, es);
    if i < j {
      NeverPendingAgain(ws, es, i, j - 1, id);
      assert Step(ws[j - 1], es[j - 1], ws[j]);
      StepMovesRow(ws[j - 1], es[j - 1], ws[j], id);
    }
  }

  /** A row that has left 'pending' is never handed out again. */
  lemma NeverTakenAgain(ws: seq<World>, es: seq<Event>, i: nat, j: nat, id: int)
    requires IsRun(ws, es) && i <= j < |es|
    requires id in ws[i].table.rows && ws[i].table.rows[id].status != Pending
    ensures !(es[j].Take? && es[j].id == id)
  {
    NeverPendingAgain(ws, es, i, j, id);
    assert Step(ws[j], es[j], ws[j + 1]);
  }

  // ── what one step does to each row ──

  /** The waits, in seconds, after the first to the fourth failure. */
  const BACKOFF: seq<int> := [30, 60, 120, 240]

  /** A row after one more failed attempt: failed at the fifth, else put off. */
  function AfterFailure(r: Row, error: string, at: int): Row {
    if r.retries >= 4 then
      Row(r.source, r.target, r.envelope, Failed, r.retries + 1, Some(error), r.lastAttempt, r.nextAttempt, r.deliveredAt)
    else
      Row(r.source, r.target, r.envelope, r.status, r.retries + 1, Some(error), r.lastAttempt, Some(at + BACKOFF[r.retries]), r.deliveredAt)
  }

  predicate TimedOut(r: Row, at: int) {
    r.status == Pending && r.deliveredAt.None? && r.lastAttempt.Some? && at - r.lastAttempt.value > 60
  }

  /** A row after a step, column by column; None when it is deleted. */
  function RowAfter(w: World, e: Event, id: int): Option<Row>
    requires id in w.table.rows
  {
    var r := w.table.rows[id];
    match e
    case Take(_, k, at) =>
      Some(if k == id then Row(r.source, r.target, r.envelope, r.status, r.retries, r.error, Some(at), r.nextAttempt, r.deliveredAt) else r)
    case Finish(agent, error, at) =>
      Some(if agent !in w.flight || w.flight[agent] != id then r
           else match error
             case None => Row(r.source, r.target, r.envelope, Delivered, r.retries, r.error, r.lastAttempt, r.nextAttempt, Some(at))
             case Some(text) => AfterFailure(r, text, at))
    case Stale(at) =>
      Some(if TimedOut(r, at) then
             Row(r.source, r.target, r.envelope, Pending, r.retries + 1, Some("Delivery attempt timed out"), r.lastAttempt, Some(at + 30), None)
           else r)
    case Withdraw(k) =>
      Some(if k == id && r.status == Pending then
             Row(r.source, r.target, r.envelope, Failed, r.retries, Some("Withdrawn by sender"), r.lastAttempt, r.nextAttempt, r.deliveredAt)
           else r)
    case Drop(agent) => if r.target == agent && r.source.None? && r.status == Pending then None else Some(r)
    case _ => Some(r)
  }

  /** Every column of every row after a step; only queueing adds a row, a fresh one that is due at once. */
  lemma StepEffect(w: World, e: Event, w': World, id: int)
    requires Good(w) && Step(w, e, w')
    ensures id in w.table.rows ==>
      match RowAfter(w, e, id) { case None => id !in w'.table.rows case Some(r) => id in w'.table.rows && w'.table.rows[id] == r }
    ensures id !in w.table.rows && id in w'.table.rows ==> e.Queue? && id == w.table.nextId
    ensures e.Queue? ==>
      && w.table.nextId !in w.table.rows && w'.table.nextId == w.table.nextId + 1 && w.table.nextId in w'.table.rows
      && w'.table.rows[w.table.nextId] == Row(e.source, e.target, e.envelope, Pending, 0, None, None, None, None)
      && forall now :: Due(w'.table.rows[w.table.nextId], e.target, now)
    ensures !e.Queue? ==> w'.table.nextId == w.table.nextId
  {
    hide IsHead;
    if id in w.table.rows && w.table.rows[id].retries < 4 { Powers(); }
  }

  lemma Powers()
    ensures Pow2(0) == 1 && Pow2(1) == 2 && Pow2(2) == 4 && Pow2(3) == 8
  {
  }

  /** Who is in flight after a step: a taken row, until it is finished or the dispatcher restarts. */
  lemma FlightEffect(w: World, e: Event, w': World)
    requires Step(w, e, w')
    ensures w'.flight == match e {
      case Take(agent, id, _) => w.flight[agent := id]
      case Finish(agent, _, _) => w.flight - {agent}
      case Restart => map[]
      case _ => w.flight
    }
    ensures e.Take? ==> e.id in w.table.rows && Due(w.table.rows[e.id], e.agent, e.at) && e.agent !in w.flight
    ensures e.Take? ==> forall k :: k in w.table.rows && Due(w.table.rows[k], e.agent, e.at) ==> e.id <= k
  {
    hide Pow2;
  }

  // ── a delivered row is done ──

  ghost predicate Settled(w: World, id: int, r: Row) {
    id in w.table.rows && w.table.rows[id] == r && r.status != Pending && id !in w.flight.Values
  }

  lemma SettledStep(w: World, e: Event, w': World, id: int, r: Row)
    requires Good(w) && Step(w, e, w') && Settled(w, id, r)
    ensures Settled(w', id, r) && !(e.Take? && e.id == id)
  {
    StepEffect(w, e, w', id);
    FlightEffect(w, e, w');
    hide Step, Good, IsHead;
    if e.Finish? && e.agent in w.flight {
      assert w.flight[e.agent] in w.flight.Values;
    }
    forall a | a in w'.flight ensures w'.flight[a] != id {
      if a in w.flight { assert w.flight[a] in w.flight.Values; }
    }
  }

  lemma {:induction false} SettledStays(ws: seq<World>, es: seq<Event>, i: nat, j: nat, id: int, r: Row)
    requires IsRun(ws, es) && i <= j <= |es| && Settled(ws[i], id, r)
    ensures Settled(ws[j], id, r)
    decreases j - i
  {
    hide Step, Settled;
    RunStaysGood(ws, es);
    if i < j {
      SettledStays(ws, es, i, j - 1, id, r);
      assert Step(ws[j - 1], es[j - 1], ws[j]);
      SettledStep(ws[j - 1], es[j - 1], ws[j], id, r);
    }
  }

  /**
   * A finish without error marks its row delivered at that time and leaves the other columns; from then
   * on the row never changes again and is never handed out again.
   */
  lemma FinishDelivers(ws: seq<World>, es: seq<Event>, i: nat, j: nat, id: int)
    requires IsRun(ws, es) && i < j <= |es|
    requires es[i].Finish? && es[i].error.None? && es[i].agent in ws[i].flight && ws[i].flight[es[i].agent] == id
    requires id in ws[i].table.rows
    ensures var r := ws[i].table.rows[id];
      && id in ws[j].table.rows
      && ws[j].table.rows[id] ==
           Row(r.source, r.target, r.envelope, Delivered, r.retries, r.error, r.lastAttempt, r.nextAttempt, Some(es[i].at))
    ensures j < |es| ==> !(es[j].Take? && es[j].id == id)
  {
    hide Step, Settled;
    RunStaysGood(ws, es);
    assert Step(ws[i], es[i], ws[i + 1]);
    StepEffect(ws[i], es[i], ws[i + 1], id);
    FlightEffect(ws[i], es[i], ws[i + 1]);
    var r := ws[i + 1].table.rows[id];
    assert Settled(ws[i + 1], id, r) by { OneFlight(ws[i], es[i], ws[i + 1], id, r); }
    SettledStays(ws, es, i + 1, j, id, r);
    assert ws[j].table.rows[id] == r && id in ws[j].table.rows by { SettledIs(ws[j], id, r); }
    if j < |es| {
      assert Step(ws[j], es[j], ws[j + 1]);
      SettledStep(ws[j], es[j], ws[j + 1], id, r);
    }
  }

  lemma SettledIs(w: World, id: int, r: Row)
    requires Settled(w, id, r)
    ensures id in w.table.rows && w.table.rows[id] == r
  {
  }

  /** A row is in flight for its own agent only. */
  lemma OneFlight(w: World, e: Event, w': World, id: int, r: Row)
    requires Good(w) && e.Finish? && e.agent in w.flight && w.flight[e.agent] == id && w'.flight == w.flight - {e.agent}
    requires id in w.table.rows && id in w'.table.rows && w'.table.rows[id] == r && r.status != Pending
    ensures Settled(w', id, r)
  {
    assert forall a :: a in w.flight && w.flight[a] == id ==> w.table.rows[id].target == a;
  }

  // ── recorded failures ──

  /** The step records a failure of the row. */
  ghost predicate Records(w: World, e: Event, id: int) {
    e.Finish? && e.error.Some? && e.agent in w.flight && w.flight[e.agent] == id && id in w.table.rows
  }

  ghost function Failures(ws: seq<World>, es: seq<Event>, id: int): nat
    requires |ws| > |es|
  {
    if |es| == 0 then 0
    else
      Failures(ws[..|es|], es[..|es| - 1], id) + if Records(ws[|es| - 1], es[|es| - 1], id) then 1 else 0
  }

  lemma FailureStep(w: World, e: Event, w': World, id: int)
    requires Good(w) && Step(w, e, w') && Records(w, e, id)
    ensures id in w'.table.rows && w'.table.rows[id].retries == w.table.rows[id].retries + 1
    ensures w'.table.rows[id].retries >= MAX_DELIVERY_RETRIES ==> w'.table.rows[id].status == Failed
    ensures w'.table.rows[id].retries < MAX_DELIVERY_RETRIES ==>
      w'.table.rows[id].nextAttempt == Some(e.at + 30 * Pow2(w.table.rows[id].retries))
    ensures w'.table.rows[id].status == w.table.rows[id].status || w'.table.rows[id].status == Failed
    ensures id !in w'.flight.Values
  {
    hide Pow2;
  }

  lemma {:induction false} RetriesCountFailures(ws: seq<World>, es: seq<Event>, id: int)
    requires IsRun(ws, es) && id >= ws[0].table.nextId
    ensures id in ws[|es|].table.rows ==> Failures(ws, es, id) <= ws[|es|].table.rows[id].retries
    ensures id !in ws[|es|].table.rows && id >= ws[|es|].table.nextId ==> Failures(ws, es, id) == 0
    ensures Failures(ws, es, id) >= MAX_DELIVERY_RETRIES ==> id in ws[|es|].table.rows && ws[|es|].table.rows[id].status != Pending
  {
    hide Step, Good, RowStep, Records, Pow2;
    RunStaysGood(ws, es);
    if |es| > 0 {
      var n := |es| - 1;
      var front := ws[..|es|];
      assert front[n] == ws[n];
      RetriesCountFailures(front, es[..n], id);
      CountStep(ws[n], es[n], ws[n + 1], id, Failures(front, es[..n], id));
    } else {
      NoRowYet(ws[0], id);
    }
  }

  lemma NoRowYet(w: World, id: int)
    requires Good(w) && id >= w.table.nextId
    ensures id !in w.table.rows
  {
  }

  lemma CountStep(w: World, e: Event, w': World, id: int, n: nat)
    requires Good(w) && Step(w, e, w')
    requires id in w.table.rows ==> n <= w.table.rows[id].retries
    requires id !in w.table.rows && id >= w.table.nextId ==> n == 0
    requires n >= MAX_DELIVERY_RETRIES ==> id in w.table.rows && w.table.rows[id].status != Pending
    ensures var n' := n + if Records(w, e, id) then 1 else 0;
      && (id in w'.table.rows ==> n' <= w'.table.rows[id].retries)
      && (id !in w'.table.rows && id >= w'.table.nextId ==> n' == 0)
      && (n' >= MAX_DELIVERY_RETRIES ==> id in w'.table.rows && w'.table.rows[id].status != Pending)
  {
    hide Step, Pow2;
    StepMovesRow(w, e, w', id);
    if Records(w, e, id) {
      FailureStep(w, e, w', id);
    } else if id >= w.table.nextId && id in w'.table.rows {
      assert id !in w.table.rows;
    }
  }

  /** However many stale resets come between, the fifth recorded failure leaves the row failed. */
  lemma FifthFailureFails(ws: seq<World>, es: seq<Event>, id: int)
    requires IsRun(ws, es) && id >= ws[0].table.nextId && |es| > 0
    requires Records(ws[|es| - 1], es[|es| - 1], id) && Failures(ws, es, id) >= MAX_DELIVERY_RETRIES
    ensures id in ws[|es|].table.rows && ws[|es|].table.rows[id].status == Failed
  {
    hide Step, Good, Pow2;
    RunStaysGood(ws, es);
    RetriesCountFailures(ws, es, id);
    var n := |es| - 1;
    assert Step(ws[n], es[n], ws[n + 1]);
    FailureStep(ws[n], es[n], ws[n + 1], id);
  }

  // ── backoff ──

  ghost function FirstFailure(ws: seq<World>, es: seq<Event>, id: int): int
    requires |ws| > |es|
  {
    if |es| == 0 then 0
    else if Failures(ws[..|es|], es[..|es| - 1], id) > 0 then FirstFailure(ws[..|es|], es[..|es| - 1], id)
    else if Records(ws[|es| - 1], es[|es| - 1], id) then es[|es| - 1].at
    else 0
  }

  /** The earliest time of the k-th retry after a first failure at `first`. */
  function Earliest(first: int, k: nat): int {
    first + 30 * (Pow2(k) - 1)
  }

  /** A stale reset that brings the next attempt of a waiting row forward. */
  predicate Hastens(r: Row, at: int) {
    IsStale(r, STALE_TIMEOUT, at) && r.nextAttempt.Some? && at + 30 < r.nextAttempt.value
  }

  /** Exactly such a reset makes a row due at a time at which it would still have been waiting. */
  lemma ResetMakesDueEarlierIff(t: Table, id: int, at: int)
    requires id in t.rows
    ensures ResetStale(t, STALE_TIMEOUT, at).rows[id].status == t.rows[id].status
    ensures var row := ResetStale(t, STALE_TIMEOUT, at).rows[id];
      (exists now :: now >= at && Due(row, row.target, now) && !Due(t.rows[id], row.target, now)) <==> Hastens(t.rows[id], at)
  {
    var row := ResetStale(t, STALE_TIMEOUT, at).rows[id];
    if Hastens(t.rows[id], at) {
      assert at + 30 >= at && Due(row, row.target, at + 30) && !Due(t.rows[id], row.target, at + 30);
    }
  }

  ghost predicate HastenedBy(w: World, e: Event, id: int) {
    e.Stale? && id in w.table.rows && Hastens(w.table.rows[id], e.at)
  }

  /** With k failures recorded, the first at `first`: the row waits, or is in flight after waiting. */
  ghost predicate Backed(w: World, id: int, k: nat, first: int) {
    && (k > 0 ==> id < w.table.nextId && first <= w.now)
    && (id >= w.table.nextId ==> id !in w.table.rows && id !in w.flight.Values)
    && (id in w.table.rows ==> w.table.rows[id].retries >= k && Attempted(w, w.table.rows[id], id, k, first))
    && (id in w.table.rows && k > 0 && w.table.rows[id].status == Pending ==>
          w.table.rows[id].nextAttempt.Some? && w.table.rows[id].nextAttempt.value >= Earliest(first, k))
    && (id in w.flight.Values && k > 0 ==> w.now >= Earliest(first, k))
  }

  /** Once it has been tried again, the last attempt lies behind the first backoff. */
  ghost predicate Attempted(w: World, r: Row, id: int, k: nat, first: int) {
    && (r.lastAttempt.Some? ==> r.lastAttempt.value <= w.now)
    && (k >= 2 || (k == 1 && id in w.flight.Values) ==>
          r.lastAttempt.Some? && r.lastAttempt.value >= Earliest(first, 1))
  }

  lemma {:induction false} PowGrows(k: nat, n: nat)
    requires k <= n
    ensures Pow2(k) <= Pow2(n)
  {
    if k < n {
      PowGrows(k, n - 1);
    }
  }

  lemma FailureBacks(w: World, e: Event, w': World, id: int, k: nat, first: int)
    requires Good(w) && Step(w, e, w') && Backed(w, id, k, first) && Records(w, e, id)
    ensures Backed(w', id, k + 1, if k == 0 then e.at else first)
  {
    hide Step, Pow2;
    StepMovesRow(w, e, w', id);
    FailureStep(w, e, w', id);
    assert id in w.flight.Values;
    DoublePow(k);
    PowGrows(k, w.table.rows[id].retries);
    StepKeepsGood(w, e, w');
    assert w'.now == e.at && w'.table.rows[id].lastAttempt == w.table.rows[id].lastAttempt by { FinishTime(w, e, w', id); }
  }

  lemma FinishTime(w: World, e: Event, w': World, id: int)
    requires Step(w, e, w') && e.Finish?
    ensures w'.now == e.at && e.at >= w.now
    ensures id in w.table.rows && id in w'.table.rows ==> w'.table.rows[id].lastAttempt == w.table.rows[id].lastAttempt
  {
    hide Pow2;
  }

  lemma DoublePow(k: nat)
    ensures Pow2(k + 1) == 2 * Pow2(k) && Pow2(1) == 2 && Pow2(0) == 1
  {
  }

  lemma TakeBacks(w: World, e: Event, w': World, id: int, k: nat, first: int)
    requires Good(w) && Step(w, e, w') && Backed(w, id, k, first) && e.Take?
    ensures Backed(w', id, k, first)
    ensures e.id == id && k > 0 ==> e.at >= Earliest(first, k)
  {
    hide Pow2;
    if id in w'.flight.Values && e.id != id {
      assert id in w.flight.Values;
    }
    if e.id == id && k > 0 {
      DoublePow(0);
      PowGrows(1, k);
    }
  }

  /** A reset leaves the wait in place unless it hastens the row; after one or two failures even
      that is too late to matter, because the row's last attempt is a minute old. */
  lemma StaleBacks(w: World, e: Event, w': World, id: int, k: nat, first: int)
    requires Good(w) && Step(w, e, w') && Backed(w, id, k, first) && e.Stale?
    requires k <= 2 || !HastenedBy(w, e, id)
    ensures Backed(w', id, k, first)
  {
    hide Pow2, IsHead;
    DoublePow(0);
    DoublePow(1);
  }

  lemma OthersBack(w: World, e: Event, w': World, id: int, k: nat, first: int)
    requires Good(w) && Step(w, e, w') && Backed(w, id, k, first)
    requires !e.Take? && !e.Stale? && !Records(w, e, id)
    ensures Backed(w', id, k, first)
  {
    hide Pow2, IsHead, Earliest;
    assert w'.flight.Values <= w.flight.Values;
    if e.Finish? {
      assert w.flight[e.agent] in w.flight.Values;
    }
  }

  lemma {:induction false} RunBacksOff(ws: seq<World>, es: seq<Event>, id: int)
    requires IsRun(ws, es) && id >= ws[0].table.nextId
    requires Failures(ws, es, id) <= 2 || forall i :: 0 <= i < |es| ==> !HastenedBy(ws[i], es[i], id)
    ensures Backed(ws[|es|], id, Failures(ws, es, id), FirstFailure(ws, es, id))
  {
    hide Step, Good, Records, Backed, HastenedBy;
    RunStaysGood(ws, es);
    if |es| == 0 {
      NothingToBack(ws[0], id);
    } else {
      var n := |es| - 1;
      var front := ws[..|es|];
      assert front[n] == ws[n];
      RunBacksOff(front, es[..n], id);
      var k, first := Failures(front, es[..n], id), FirstFailure(front, es[..n], id);
      if Records(ws[n], es[n], id) {
        FailureBacks(ws[n], es[n], ws[n + 1], id, k, first);
      } else {
        if es[n].Take? {
          TakeBacks(ws[n], es[n], ws[n + 1], id, k, first);
        } else if es[n].Stale? {
          StaleBacks(ws[n], es[n], ws[n + 1], id, k, first);
        } else {
          OthersBack(ws[n], es[n], ws[n + 1], id, k, first);
        }
        if k == 0 {
          FirstIsFree(ws[n + 1], id, first, FirstFailure(ws, es, id));
        }
      }
    }
  }

  lemma NothingToBack(w: World, id: int)
    requires Good(w) && id >= w.table.nextId
    ensures Backed(w, id, 0, 0)
  {
    assert forall a :: a in w.flight ==> w.flight[a] < w.table.nextId;
  }

  lemma FirstIsFree(w: World, id: int, first: int, other: int)
    requires Backed(w, id, 0, first)
    ensures Backed(w, id, 0, other)
  {
  }

  /** The last step hands out row `id`, of which k failures are recorded. */
  ghost predicate HandsOut(ws: seq<World>, es: seq<Event>, id: int, k: nat) {
    && IsRun(ws, es) && |es| > 0 && id >= ws[0].table.nextId
    && es[|es| - 1].Take? && es[|es| - 1].id == id
    && Failures(ws[..|es|], es[..|es| - 1], id) == k
  }

  ghost predicate BacksOff(ws: seq<World>, es: seq<Event>, id: int, k: nat)
    requires HandsOut(ws, es, id, k)
  {
    es[|es| - 1].at >= Earliest(FirstFailure(ws[..|es|], es[..|es| - 1], id), k)
  }

  /**
   * The hand-out after the k-th recorded failure comes no earlier than 30 * (2^k - 1) seconds after the
   * first failure: for k up to two in every run, for more failures if no stale reset hastens the row.
   */
  lemma RetryComesAfterBackoff(ws: seq<World>, es: seq<Event>, id: int, k: nat)
    requires HandsOut(ws, es, id, k) && k > 0
    requires k <= 2 || forall i :: 0 <= i < |es| - 1 ==> !HastenedBy(ws[i], es[i], id)
    ensures BacksOff(ws, es, id, k)
  {
    hide Step, Good, Backed, Records, Pow2, HastenedBy;
    RunStaysGood(ws, es);
    var n := |es| - 1;
    var front := ws[..|es|];
    assert front[n] == ws[n];
    RunBacksOff(front, es[..n], id);
    TakeBacks(ws[n], es[n], ws[n + 1], id, k, FirstFailure(front, es[..n], id));
  }

  // ── where a reset does break the backoff ──

  /** A table of one row, which may be in flight. */
  function One(r: Row, flying: bool, now: int): World {
    World(Table(map[1 := r], 2), if flying then map["a" := 1] else map[], now)
  }

  /** A run on which row 1 has failed k times, at time 0 first and at t last, and waits. */
  ghost predicate FailedRun(ws: seq<World>, es: seq<Event>, k: nat, t: int, r: Row) {
    && IsRun(ws, es) && ws[0] == World(Table(map[], 1), map[], 0)
    && ws[|es|] == One(r, false, t) && r.target == "a" && r.status == Pending && r.deliveredAt.None? && r.retries == k
    && (if k == 0 then r.nextAttempt.None? && t == 0
        else r.lastAttempt == Some(t) && r.nextAttempt == Some(t + 30 * Pow2(k - 1)))
    && Failures(ws, es, 1) == k && FirstFailure(ws, es, 1) == 0
  }

  lemma Longer(ws: seq<World>, es: seq<Event>, e: Event, w: World)
    requires IsRun(ws, es) && Step(ws[|es|], e, w)
    ensures IsRun(ws + [w], es + [e])
    ensures Failures(ws + [w], es + [e], 1) == Failures(ws, es, 1) + if Records(ws[|es|], e, 1) then 1 else 0
    ensures Failures(ws, es, 1) > 0 || !Records(ws[|es|], e, 1) || e.at == 0 ==>
      FirstFailure(ws + [w], es + [e], 1) == if Failures(ws, es, 1) > 0 then FirstFailure(ws, es, 1) else 0
  {
    hide Step, Good, Records;
    var ws', es' := ws + [w], es + [e];
    assert ws'[..|es'|] == ws && es'[..|es'| - 1] == es;
  }

  /** One more failed attempt, at a time at which the row is due; an attempt takes no time. */
  lemma FailsAgain(ws: seq<World>, es: seq<Event>, k: nat, t: int, r: Row, at: int)
    returns (ws': seq<World>, es': seq<Event>, r': Row)
    requires FailedRun(ws, es, k, t, r) && k < 4 && at >= t
    requires if k == 0 then at == 0 else at >= t + 30 * Pow2(k - 1)
    ensures FailedRun(ws', es', k + 1, at, r')
  {
    hide Good, Records, Failures, FirstFailure, Pow2;
    var taken := Started(r, at);
    r' := Missed(taken, "x", at);
    var take, finish := Take("a", 1, at), Finish("a", Some("x"), at);
    var w1, w2 := One(taken, true, at), One(r', false, at);
    HandsRow(r, t, at);
    Longer(ws, es, take, w1);
    LosesRow(taken, at);
    Longer(ws + [w1], es + [take], finish, w2);
    ws', es' := ws + [w1] + [w2], es + [take] + [finish];
    assert Records(w1, finish, 1) && !Records(One(r, false, t), take, 1) by { RecordsOne(r, taken, t, at); }
  }

  lemma RecordsOne(r: Row, taken: Row, t: int, at: int)
    ensures Records(One(taken, true, at), Finish("a", Some("x"), at), 1)
    ensures !Records(One(r, false, t), Take("a", 1, at), 1) && !Records(One(r, false, t), Stale(at), 1)
  {
  }

  lemma HandsRow(r: Row, t: int, at: int)
    requires Due(r, "a", at) && at >= t
    ensures Step(One(r, false, t), Take("a", 1, at), One(Started(r, at), true, at))
  {
    assert map[1 := r][1 := Started(r, at)] == map[1 := Started(r, at)];
  }

  lemma LosesRow(r: Row, at: int)
    ensures Step(One(r, true, at), Finish("a", Some("x"), at), One(Missed(r, "x", at), false, at))
  {
    hide Missed;
    assert map["a" := 1] - {"a"} == map[];
    assert map[1 := r][1 := Missed(r, "x", at)] == map[1 := Missed(r, "x", at)];
  }

  lemma ResetsRow(r: Row, t: int, at: int)
    requires IsStale(r, STALE_TIMEOUT, at) && at >= t
    ensures Step(One(r, false, t), Stale(at), One(Revived(r, at), false, at))
  {
    assert ResetStale(Table(map[1 := r], 2), STALE_TIMEOUT, at).rows == map[1 := Revived(r, at)];
  }

  /** After three or four failures a reset, a minute after the last attempt, hands the row out early. */
  lemma ResetBreaksBackoff(k: nat) returns (ws: seq<World>, es: seq<Event>)
    requires 3 <= k <= 4
    ensures HandsOut(ws, es, 1, k) && !BacksOff(ws, es, 1, k)
  {
    hide Step, Good, Records, Failures, FirstFailure;
    var r, t;
    ws, es, r, t := ThreeFailures();
    if k == 4 {
      t := 210;
      ws, es, r := FailsAgain(ws, es, 3, 90, r, 210);
    }
    var reset, take := Stale(t + 61), Take("a", 1, t + 91);
    var w1, w2 := One(Revived(r, t + 61), false, t + 61), One(Started(Revived(r, t + 61), t + 91), true, t + 91);
    ResetsRow(r, t, t + 61);
    Longer(ws, es, reset, w1);
    RecordsOne(r, r, t, t + 61);
    HandsRow(Revived(r, t + 61), t + 61, t + 91);
    Longer(ws + [w1], es + [reset], take, w2);
    assert (ws + [w1] + [w2])[..|es| + 2] == ws + [w1] && (es + [reset] + [take])[..|es| + 1] == es + [reset];
    ws, es := ws + [w1] + [w2], es + [reset] + [take];
  }

  lemma ThreeFailures() returns (ws: seq<World>, es: seq<Event>, r: Row, t: int)
    ensures FailedRun(ws, es, 3, 90, r) && t == 90
  {
    ws, es, r := Queued();
    ws, es, r := FailsAgain(ws, es, 0, 0, r, 0);
    ws, es, r := FailsAgain(ws, es, 1, 0, r, 30);
    ws, es, r := FailsAgain(ws, es, 2, 30, r, 90);
    t := 90;
  }

  lemma Queued() returns (ws: seq<World>, es: seq<Event>, r: Row)
    ensures FailedRun(ws, es, 0, 0, r)
  {
    var w0 := World(Table(map[], 1), map[], 0);
    var e := Queue(None, "a", "m");
    r := Row(None, "a", "m", Pending, 0, None, None, None, None);
    assert map[][1 := r] == map[1 := r];
    assert IsRun([w0], []);
    Longer([w0], [], e, One(r, false, 0));
    ws, es := [w0] + [One(r, false, 0)], [] + [e];
  }

  /** A fifth recorded failure ends the row, so none is handed out after it. */
  lemma NoFifthRetry(ws: seq<World>, es: seq<Event>, id: int, k: nat)
    requires HandsOut(ws, es, id, k)
    ensures k < MAX_DELIVERY_RETRIES
  {
    hide Good, Records, Failures;
    var n := |es| - 1;
    var front := ws[..|es|];
    assert front[n] == ws[n] && Step(ws[n], es[n], ws[n + 1]);
    assert IsRun(front, es[..n]);
    RetriesCountFailures(front, es[..n], id);
  }

  /** Exactly which retries keep the backoff in every run, whatever resets come between. */
  lemma EveryRunBacksOffIff(k: nat)
    requires k > 0
    ensures (forall ws, es, id :: HandsOut(ws, es, id, k) ==> BacksOff(ws, es, id, k)) <==> k <= 2 || k >= MAX_DELIVERY_RETRIES
  {
    hide HandsOut, BacksOff;
    forall ws, es, id | HandsOut(ws, es, id, k) && (k <= 2 || k >= MAX_DELIVERY_RETRIES) ensures BacksOff(ws, es, id, k) {
      NoFifthRetry(ws, es, id, k);
      RetryComesAfterBackoff(ws, es, id, k);
    }
    if 3 <= k <= 4 {
      var ws, es := ResetBreaksBackoff(k);
      assert HandsOut(ws, es, 1, k) && !BacksOff(ws, es, 1, k);
    }
  }
}
