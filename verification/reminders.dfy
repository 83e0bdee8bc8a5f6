/** Reminders: the order of each agent's pending ones, and which are due. */
module Reminders {
  import opened Options

  datatype Reminder = Reminder(agent: string, prompt: string, cadence: int, order: int, pending: bool,
                               lastDelivered: Option<int>)

  /** Rows carry autoincrement ids below `nextId`. */
  datatype Table = Table(rows: map<int, Reminder>, nextId: int)

  const MIN_CADENCE: int := 5

  predicate PendingOf(t: Table, agent: string, id: int) {
    id in t.rows && t.rows[id].pending && t.rows[id].agent == agent
  }

  // ── the statements ──

  /** `COALESCE(MAX(sort_order), -1) + 1` over the agent's pending reminders. */
  ghost predicate IsNextOrder(t: Table, agent: string, n: int) {
    && (forall id :: PendingOf(t, agent, id) ==> t.rows[id].order < n)
    && ((exists id :: PendingOf(t, agent, id) && t.rows[id].order == n - 1)
        || (n == 0 && forall id :: !PendingOf(t, agent, id)))
  }

  function Created(t: Table, agent: string, prompt: string, cadence: int, order: int): Table {
    Table(t.rows[t.nextId := Reminder(agent, prompt, cadence, order, true, None)], t.nextId + 1)
  }

  function Completed(t: Table, id: int): Table {
    if id in t.rows then t.(rows := t.rows[id := t.rows[id].(pending := false)]) else t
  }

  function Deleted(t: Table, id: int): Table {
    t.(rows := t.rows - {id})
  }

  predicate Swappable(t: Table, a: int, b: int) {
    a in t.rows && b in t.rows && t.rows[a].agent == t.rows[b].agent
  }

  /** Both orders are read before either is written; the status of the two is not looked at. */
  function Swapped(t: Table, a: int, b: int): Table {
    if Swappable(t, a, b) then
      var x, y := t.rows[a].order, t.rows[b].order;
      var first := t.rows[a := t.rows[a].(order := y)];
      t.(rows := first[b := first[b].(order := x)])
    else t
  }

  function Rescheduled(t: Table, id: int, cadence: int): Table {
    if id in t.rows then t.(rows := t.rows[id := t.rows[id].(cadence := cadence)]) else t
  }

  function DeliveredAt(t: Table, id: int, now: int): Table {
    if id in t.rows then t.(rows := t.rows[id := t.rows[id].(lastDelivered := Some(now))]) else t
  }

  predicate Elapsed(r: Reminder, now: int) {
    r.lastDelivered.None? || now - r.lastDelivered.value >= r.cadence * 60
  }

  ghost predicate IsMinOrder(t: Table, agent: string, order: int) {
    && (exists id :: PendingOf(t, agent, id) && t.rows[id].order == order)
    && (forall id :: PendingOf(t, agent, id) ==> order <= t.rows[id].order)
  }

  /** What `getTopReminder` may return: a pending reminder with the least order. */
  ghost predicate IsTop(t: Table, agent: string, id: int) {
    PendingOf(t, agent, id) && forall k :: PendingOf(t, agent, k) ==> t.rows[id].order <= t.rows[k].order
  }

  /** What `listDueReminders` selects: pending, at the least pending order of its agent, and elapsed. */
  ghost predicate Listed(t: Table, now: int, id: int) {
    && id in t.rows && t.rows[id].pending && Elapsed(t.rows[id], now)
    && IsMinOrder(t, t.rows[id].agent, t.rows[id].order)
  }

  // ── runs ──

  datatype Event =
    | Create(agent: string, prompt: string, cadence: int)
    | Complete(id: int)
    | Delete(id: int)
    | Swap(a: int, b: int)
    | Reschedule(id: int, cadence: int)
    | Deliver(id: int, now: int)

  ghost predicate Step(t: Table, e: Event, t': Table) {
    match e
    case Create(agent, prompt, cadence) =>
      if cadence < MIN_CADENCE then t' == t
      else exists n :: IsNextOrder(t, agent, n) && t' == Created(t, agent, prompt, cadence, n)
    case Complete(id) => t' == Completed(t, id)
    case Delete(id) => t' == Deleted(t, id)
    case Swap(a, b) => t' == Swapped(t, a, b)
    case Reschedule(id, cadence) => t' == if cadence < MIN_CADENCE then t else Rescheduled(t, id, cadence)
    case Deliver(id, now) => t' == DeliveredAt(t, id, now)
  }

  /** No two pending reminders of an agent share an order, and ids are below the counter. */
  ghost predicate Ordered(t: Table) {
    && (forall id :: id in t.rows ==> id < t.nextId)
    && forall i, j :: i in t.rows && j in t.rows && Rivals(t.rows[i], t.rows[j]) && i != j ==>
        t.rows[i].order != t.rows[j].order
  }

  predicate Rivals(a: Reminder, b: Reminder) {
    a.pending && b.pending && a.agent == b.agent
  }

  /** No pending reminder but `id` would share the order that `id` takes over from `from`. */
  ghost predicate Free(t: Table, id: int, from: int)
    requires id in t.rows && from in t.rows
  {
    forall k :: k in t.rows && Rivals(t.rows[k], t.rows[id]) && k != id ==> t.rows[k].order != t.rows[from].order
  }

  /** Swapping one pending and one completed reminder is safe only if the order taken over is free. */
  ghost predicate SwapSafe(t: Table, a: int, b: int) {
    Swappable(t, a, b) ==>
      && (t.rows[a].pending && !t.rows[b].pending ==> Free(t, a, b))
      && (t.rows[b].pending && !t.rows[a].pending ==> Free(t, b, a))
  }

  /** A swap keeps the orders distinct exactly when it is safe. */
  lemma SwapKeepsOrderedIff(t: Table, a: int, b: int)
    requires Ordered(t)
    ensures Ordered(Swapped(t, a, b)) <==> SwapSafe(t, a, b)
  {
    var t' := Swapped(t, a, b);
    if Swappable(t, a, b) {
      if SwapSafe(t, a, b) {
        SafeSwap(t, a, b);
      } else if t.rows[a].pending && !t.rows[b].pending && !Free(t, a, b) {
        UnsafeSwap(t, a, b);
      } else {
        UnsafeSwap(t, b, a);
        assert Swapped(t, b, a).rows == t'.rows;
      }
    }
  }

  lemma SafeSwap(t: Table, a: int, b: int)
    requires Ordered(t) && Swappable(t, a, b) && SwapSafe(t, a, b)
    ensures Ordered(Swapped(t, a, b))
  {
    var t' := Swapped(t, a, b);
    forall i, j | i in t'.rows && j in t'.rows && Rivals(t'.rows[i], t'.rows[j]) && i != j
      ensures t'.rows[i].order != t'.rows[j].order
    {
      assert Rivals(t.rows[i], t.rows[j]) && Rivals(t.rows[j], t.rows[i]);
    }
  }

  lemma UnsafeSwap(t: Table, a: int, b: int)
    requires Ordered(t) && Swappable(t, a, b) && t.rows[a].pending && !t.rows[b].pending && !Free(t, a, b)
    ensures !Ordered(Swapped(t, a, b))
  {
    var t' := Swapped(t, a, b);
    var k :| k in t.rows && Rivals(t.rows[k], t.rows[a]) && k != a && t.rows[k].order == t.rows[b].order;
    assert Rivals(t'.rows[k], t'.rows[a]);
  }

  lemma StepKeepsOrdered(t: Table, e: Event, t': Table)
    requires Ordered(t) && Step(t, e, t') && (e.Swap? ==> SwapSafe(t, e.a, e.b))
    ensures Ordered(t')
  {
    hide Swapped;
    match e {
      case Create(agent, prompt, cadence) => {
        if cadence >= MIN_CADENCE {
          var n :| IsNextOrder(t, agent, n) && t' == Created(t, agent, prompt, cadence, n);
          CreateKeepsOrdered(t, agent, prompt, cadence, n);
        }
      }
      case Swap(a, b) => SwapKeepsOrderedIff(t, a, b);
      case Complete(_) =>
      case Delete(_) =>
      case Reschedule(_, _) =>
      case Deliver(_, _) =>
    }
  }

  lemma CreateKeepsOrdered(t: Table, agent: string, prompt: string, cadence: int, n: int)
    requires Ordered(t) && IsNextOrder(t, agent, n)
    ensures Ordered(Created(t, agent, prompt, cadence, n))
  {
    var t' := Created(t, agent, prompt, cadence, n);
    forall k | k in t.rows && t.rows[k].pending && t.rows[k].agent == agent ensures t.rows[k].order < n {
      assert PendingOf(t, agent, k);
    }
  }

  ghost predicate IsRun(ts: seq<Table>, es: seq<Event>) {
    && |ts| == |es| + 1
    && Ordered(ts[0])
    && forall i :: 0 <= i < |es| ==> Step(ts[i], es[i], ts[i + 1])
  }

  /** Orders stay distinct over every run whose swaps are safe; swaps of two pending ones always are. */
  lemma {:induction false} RunStaysOrdered(ts: seq<Table>, es: seq<Event>)
    requires IsRun(ts, es)
    requires forall i :: 0 <= i < |es| && es[i].Swap? ==> SwapSafe(ts[i], es[i].a, es[i].b)
    ensures forall i :: 0 <= i < |ts| ==> Ordered(ts[i])
  {
    hide Ordered, Step, SwapSafe;
    if |es| > 0 {
      var n := |es| - 1;
      RunStaysOrdered(ts[..|es|], es[..n]);
      StepKeepsOrdered(ts[..|es|][n], es[n], ts[n + 1]);
    }
  }

  /**
   * With distinct orders, the due list holds exactly each agent's top reminder whose cadence has
   * elapsed, so at most one per agent.
   */
  lemma DueIsElapsedTop(t: Table, now: int)
    requires Ordered(t)
    ensures forall id :: id in t.rows ==> (Listed(t, now, id) <==> IsTop(t, t.rows[id].agent, id) && Elapsed(t.rows[id], now))
    ensures forall i, j :: Listed(t, now, i) && Listed(t, now, j) && t.rows[i].agent == t.rows[j].agent ==> i == j
    ensures forall a, i, j :: IsTop(t, a, i) && IsTop(t, a, j) ==> i == j
  {
    forall id | id in t.rows
      ensures Listed(t, now, id) <==> IsTop(t, t.rows[id].agent, id) && Elapsed(t.rows[id], now)
    {
      ListedIsTop(t, now, id);
    }
    forall a, i, j | IsTop(t, a, i) && IsTop(t, a, j) ensures i == j {
      assert Rivals(t.rows[i], t.rows[j]);
    }
    forall i, j | Listed(t, now, i) && Listed(t, now, j) && t.rows[i].agent == t.rows[j].agent ensures i == j {
      ListedIsTop(t, now, i);
      ListedIsTop(t, now, j);
    }
  }

  lemma ListedIsTop(t: Table, now: int, id: int)
    requires id in t.rows
    ensures Listed(t, now, id) <==> IsTop(t, t.rows[id].agent, id) && Elapsed(t.rows[id], now)
  {
    if t.rows[id].pending {
      assert PendingOf(t, t.rows[id].agent, id);
    }
  }

  /** After swapping a completed reminder with a pending one, an agent can have two due reminders. */
  lemma SwapWithCompletedListsTwo(now: int)
    ensures
      var r := Reminder("a", "p", 5, 0, true, None);
      var t := Table(map[1 := r.(pending := false), 2 := r, 3 := r.(order := 1)], 4);
      var t' := Swapped(t, 1, 3);
      Ordered(t) && !Ordered(t') && Listed(t', now, 2) && Listed(t', now, 3)
  {
    var r := Reminder("a", "p", 5, 0, true, None);
    var t := Table(map[1 := r.(pending := false), 2 := r, 3 := r.(order := 1)], 4);
    var t' := Swapped(t, 1, 3);
    assert PendingOf(t', "a", 2) && PendingOf(t', "a", 3);
    assert Rivals(t'.rows[2], t'.rows[3]);
  }

  // ── what each step does to every reminder ──

  /** Every reminder after a step, column by column: a new one stands behind the agent's pending ones,
      a swap exchanges two orders, and the rest set one column or delete. */
  lemma StepEffect(t: Table, e: Event, t': Table, id: int)
    requires Ordered(t) && Step(t, e, t')
    ensures id in t.rows ==>
      var r := t.rows[id];
      match e
      case Complete(k) => id in t'.rows && t'.rows[id] == Reminder(r.agent, r.prompt, r.cadence, r.order, r.pending && k != id, r.lastDelivered)
      case Delete(k) => if k == id then id !in t'.rows else id in t'.rows && t'.rows[id] == r
      case Swap(a, b) =>
        var both := a in t.rows && b in t.rows && t.rows[a].agent == t.rows[b].agent;
        var order := if both && id == a then t.rows[b].order else if both && id == b then t.rows[a].order else r.order;
        id in t'.rows && t'.rows[id] == Reminder(r.agent, r.prompt, r.cadence, order, r.pending, r.lastDelivered)
      case Reschedule(k, cadence) =>
        id in t'.rows && t'.rows[id] ==
          Reminder(r.agent, r.prompt, if k == id && cadence >= 5 then cadence else r.cadence, r.order, r.pending, r.lastDelivered)
      case Deliver(k, now) =>
        id in t'.rows && t'.rows[id] ==
          Reminder(r.agent, r.prompt, r.cadence, r.order, r.pending, if k == id then Some(now) else r.lastDelivered)
      case Create(_, _, _) => id in t'.rows && t'.rows[id] == r
    ensures id !in t.rows && id in t'.rows ==> e.Create? && e.cadence >= 5 && id == t.nextId
    ensures e.Create? && e.cadence >= 5 ==>
      && t.nextId in t'.rows && t'.nextId == t.nextId + 1
      && var r := t'.rows[t.nextId];
      && r.agent == e.agent && r.prompt == e.prompt && r.cadence == e.cadence && r.pending && r.lastDelivered.None?
      && (forall k :: k in t.rows && t.rows[k].pending && t.rows[k].agent == e.agent ==> t.rows[k].order < r.order)
      && (r.order == 0 || exists k :: k in t.rows && t.rows[k].pending && t.rows[k].agent == e.agent && t.rows[k].order == r.order - 1)
  {
    if e.Create? && e.cadence >= 5 {
      var n :| IsNextOrder(t, e.agent, n) && t' == Created(t, e.agent, e.prompt, e.cadence, n);
      forall k | k in t.rows && t.rows[k].pending && t.rows[k].agent == e.agent ensures t.rows[k].order < n {
        assert PendingOf(t, e.agent, k);
      }
    }
  }

  /** A reminder is listed when it is the top of its agent's pending ones and was never delivered, or not
      for as many minutes as its cadence says. */
  lemma ListedIff(t: Table, now: int, id: int)
    requires id in t.rows
    ensures Listed(t, now, id) <==>
      var r := t.rows[id];
      && r.pending && (forall k :: k in t.rows && t.rows[k].pending && t.rows[k].agent == r.agent ==> r.order <= t.rows[k].order)
      && match r.lastDelivered case None => true case Some(at) => now >= at + 60 * r.cadence
  {
    var r := t.rows[id];
    if r.pending {
      assert PendingOf(t, r.agent, id);
      assert forall k :: PendingOf(t, r.agent, k) <==> k in t.rows && t.rows[k].pending && t.rows[k].agent == r.agent;
    }
  }

  // ── the table as it is updated ──

  class ReminderTable {
    var rows: map<int, Reminder>
    var nextId: int

    ghost function View(): Table
      reads this
    {
      Table(rows, nextId)
    }

    ghost predicate Valid()
      reads this
    {
      nextId >= 1 && forall id :: id in rows ==> 1 <= id < nextId
    }

    constructor ()
      ensures Valid() && Ordered(View())
    {
      rows, nextId := map[], 1;
    }

    method NextOrder(agent: string) returns (n: int)
      requires Valid()
      ensures IsNextOrder(View(), agent, n)
    {
      var max := -1;
      var at := 0;
      var id := 1;
      while id < nextId
        invariant forall k :: PendingOf(View(), agent, k) && k < id ==> rows[k].order <= max
        invariant if at == 0 then max == -1 && forall k :: PendingOf(View(), agent, k) ==> k >= id
                  else PendingOf(View(), agent, at) && rows[at].order == max
      {
        if id in rows && rows[id].pending && rows[id].agent == agent && (max < rows[id].order || at == 0) {
          max, at := rows[id].order, id;
        }
        id := id + 1;
      }
      n := max + 1;
    }

    /** None when the cadence is too short: the source throws. */
    method CreateReminder(agent: string, prompt: string, cadence: int) returns (id: Option<int>)
      requires Valid()
      modifies this
      ensures Valid() && Step(old(View()), Create(agent, prompt, cadence), View())
      ensures id == if cadence < MIN_CADENCE then None else Some(old(nextId))
    {
      if cadence < MIN_CADENCE {
        return None;
      }
      var n := NextOrder(agent);
      id := Some(nextId);
      rows := rows[nextId := Reminder(agent, prompt, cadence, n, true, None)];
      nextId := nextId + 1;
    }

    method CompleteReminder(id: int)
      modifies this`rows
      ensures View() == Completed(old(View()), id)
    {
      if id in rows {
        rows := rows[id := rows[id].(pending := false)];
      }
    }

    method DeleteReminder(id: int) returns (found: bool)
      modifies this`rows
      ensures View() == Deleted(old(View()), id) && (found <==> id in old(rows))
    {
      found := id in rows;
      rows := rows - {id};
    }

    method SwapReminderOrder(a: int, b: int) returns (done: bool)
      modifies this`rows
      ensures View() == Swapped(old(View()), a, b) && (done <==> Swappable(old(View()), a, b))
    {
      if a !in rows || b !in rows {
        return false;
      }
      var r1, r2 := rows[a], rows[b];
      if r1.agent != r2.agent {
        return false;
      }
      rows := rows[a := rows[a].(order := r2.order)];
      rows := rows[b := rows[b].(order := r1.order)];
      done := true;
    }

    method GetTopReminder(agent: string) returns (top: Option<int>)
      requires Valid()
      ensures top.Some? ==> IsTop(View(), agent, top.value)
      ensures top.None? ==> forall id :: !PendingOf(View(), agent, id)
    {
      top := None;
      var id := 1;
      while id < nextId
        invariant top.Some? ==> PendingOf(View(), agent, top.value)
        invariant forall k :: PendingOf(View(), agent, k) && k < id ==> top.Some? && rows[top.value].order <= rows[k].order
      {
        if id in rows && rows[id].pending && rows[id].agent == agent && (top.None? || rows[id].order < rows[top.value].order) {
          top := Some(id);
        }
        id := id + 1;
      }
    }

    /** The least pending order of each agent, as the inner query groups them. */
    method MinOrders() returns (least: map<string, int>)
      requires Valid()
      ensures forall a :: a in least <==> exists id :: PendingOf(View(), a, id)
      ensures forall a :: a in least ==> IsMinOrder(View(), a, least[a])
    {
      least := map[];
      ghost var at: map<string, int> := map[];
      var id := 1;
      while id < nextId
        invariant at.Keys == least.Keys
        invariant forall a :: a in least ==> PendingOf(View(), a, at[a]) && rows[at[a]].order == least[a]
        invariant forall a, k :: PendingOf(View(), a, k) && k < id ==> a in least && least[a] <= rows[k].order
      {
        if id in rows && rows[id].pending {
          var a := rows[id].agent;
          assert PendingOf(View(), a, id);
          if a !in least || rows[id].order < least[a] {
            least, at := least[a := rows[id].order], at[a := id];
          }
        }
        id := id + 1;
      }
    }

    method ListDueReminders(now: int) returns (due: seq<int>)
      requires Valid()
      ensures forall id :: id in due <==> Listed(View(), now, id)
    {
      hide IsMinOrder;
      var least := MinOrders();
      due := [];
      var id := 1;
      while id < nextId
        invariant forall k :: k in due <==> Listed(View(), now, k) && k < id
      {
        if id in rows && rows[id].pending {
          var a := rows[id].agent;
          assert PendingOf(View(), a, id);
          OneMinOrder(View(), a, least[a], rows[id].order);
          if rows[id].order == least[a] && Elapsed(rows[id], now) {
            due := due + [id];
          }
        }
        id := id + 1;
      }
    }
  }

  lemma OneMinOrder(t: Table, agent: string, x: int, y: int)
    requires IsMinOrder(t, agent, x)
    ensures IsMinOrder(t, agent, y) <==> x == y
  {
  }
}
