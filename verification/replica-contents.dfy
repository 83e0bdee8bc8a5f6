/** What a connected tab shows: the very rows of the server's log, and none of them lost. */
module ReplicaContents {
  import opened Options
  import opened MessageRows
  import opened DashboardSpec
  import opened DashboardEvents
  import opened DashboardEffects
  import opened ReplicaSegments
  import opened ReplicaRuns

  // ── the very rows, marks of withdrawal included ──

  /** A notice for that id is still in flight. */
  ghost predicate Announced(queue: seq<Note>, id: int) {
    exists p :: 0 <= p < |queue| && queue[p].Withdrawn? && queue[p].row.id == id
  }

  ghost predicate Current(log: seq<Msg>, queue: seq<Note>, m: Msg) {
    m.id > 0 ==> m in log || Announced(queue, m.id)
  }

  ghost predicate AllCurrent(log: seq<Msg>, queue: seq<Note>, threads: Threads) {
    forall a, m :: m in Thread(threads, a) ==> Current(log, queue, m)
  }

  /** A row in flight is the log's, or a notice for it comes behind. */
  ghost predicate QueueCurrent(log: seq<Msg>, queue: seq<Note>) {
    && (forall p :: 0 <= p < |queue| && queue[p].Withdrawn? ==> queue[p].row in log && queue[p].row.withdrawn)
    && (forall p :: 0 <= p < |queue| && queue[p].Live? ==> Current(log, queue[p + 1..], queue[p].row))
  }

  ghost predicate LinkCurrent(w: World) {
    && w.link.Up? && QueueCurrent(w.log, w.link.queue)
    && match w.link.init {
      case None => AllCurrent(w.log, w.link.queue, w.chat.threads)
      case Some(init) =>
        AllCurrent(w.log, w.link.queue, init.threads) && (init.delta ==> AllCurrent(w.log, w.link.queue, w.chat.threads))
    }
  }

  /** The connection lives on, and the page is not reloaded. */
  predicate StaysUp(e: Event) {
    !e.Drop? && !e.Dial? && !e.Accept? && !e.Reload?
  }

  lemma AnnouncedMore(queue: seq<Note>, n: Note, id: int)
    requires Announced(queue, id) || (n.Withdrawn? && n.row.id == id)
    ensures Announced(queue + [n], id)
  {
    if Announced(queue, id) {
      var p :| 0 <= p < |queue| && queue[p].Withdrawn? && queue[p].row.id == id;
      assert (queue + [n])[p] == queue[p];
    } else {
      assert (queue + [n])[|queue|] == n;
    }
  }

  /** The log changes by an append or a withdrawal, and the note of it is pushed. */
  ghost predicate Noted(log: seq<Msg>, later: seq<Msg>, n: Note) {
    forall m :: m in log && m.id > 0 ==> m in later || (n.Withdrawn? && n.row.id == m.id)
  }

  lemma CurrentMoves(log: seq<Msg>, later: seq<Msg>, queue: seq<Note>, n: Note, m: Msg)
    requires Current(log, queue, m) && Noted(log, later, n)
    ensures Current(later, queue + [n], m)
  {
    if m.id > 0 {
      if Announced(queue, m.id) || (n.Withdrawn? && n.row.id == m.id) {
        AnnouncedMore(queue, n, m.id);
      }
    }
  }

  lemma AllCurrentMoves(log: seq<Msg>, later: seq<Msg>, queue: seq<Note>, n: Note, threads: Threads)
    requires AllCurrent(log, queue, threads) && Noted(log, later, n)
    ensures AllCurrent(later, queue + [n], threads)
  {
    hide Current, Noted;
    forall a, m | m in Thread(threads, a) ensures Current(later, queue + [n], m) {
      CurrentMoves(log, later, queue, n, m);
    }
  }

  lemma QueueMoves(log: seq<Msg>, later: seq<Msg>, queue: seq<Note>, n: Note)
    requires QueueCurrent(log, queue) && Noted(log, later, n)
    requires forall m :: m in log && m.withdrawn ==> m in later
    requires n.row in later && (n.Withdrawn? ==> n.row.withdrawn)
    ensures QueueCurrent(later, queue + [n])
  {
    hide Noted;
    var q := queue + [n];
    forall p | 0 <= p < |q| && q[p].Live? ensures Current(later, q[p + 1..], q[p].row) {
      if p < |queue| {
        assert q[p + 1..] == queue[p + 1..] + [n];
        CurrentMoves(log, later, queue[p + 1..], n, queue[p].row);
      }
    }
    forall p | 0 <= p < |q| && q[p].Withdrawn? ensures q[p].row in later && q[p].row.withdrawn {
      if p < |queue| { assert queue[p].row in log; }
    }
  }

  lemma LogChangeKeepsCurrent(w: World, log: seq<Msg>, n: Note)
    requires LinkCurrent(w) && Noted(w.log, log, n) && (forall m :: m in w.log && m.withdrawn ==> m in log)
    requires n.row in log && (n.Withdrawn? ==> n.row.withdrawn)
    ensures LinkCurrent(w.(log := log, link := Push(w.link, n)))
  {
    hide AllCurrent, QueueCurrent, Noted;
    QueueMoves(w.log, log, w.link.queue, n);
    match w.link.init {
      case None => AllCurrentMoves(w.log, log, w.link.queue, n, w.chat.threads);
      case Some(init) => {
        AllCurrentMoves(w.log, log, w.link.queue, n, init.threads);
        if init.delta { AllCurrentMoves(w.log, log, w.link.queue, n, w.chat.threads); }
      }
    }
  }

  lemma AppendKeepsCurrent(w: World, row: Msg)
    requires LinkCurrent(w)
    ensures LinkCurrent(Appended(w, row))
  {
    hide LinkCurrent;
    LogChangeKeepsCurrent(w, w.log + [row], Live(row));
  }

  lemma WithdrawKeepsCurrent(w: World, at: nat)
    requires LinkCurrent(w) && at < |w.log|
    ensures LinkCurrent(MarkWithdrawn(w, at))
  {
    hide LinkCurrent;
    var row := w.log[at].(withdrawn := true);
    var log := w.log[at := row];
    assert log[at] == row;
    forall m | m in w.log ensures m in log || (m == w.log[at] && m != row) {
      var k :| 0 <= k < |w.log| && w.log[k] == m;
      if k != at { assert log[k] == m; }
    }
    LogChangeKeepsCurrent(w, log, Withdrawn(row));
  }

  // ── deliveries ──

  lemma MergedIsCurrent(log: seq<Msg>, queue: seq<Note>, threads: Threads, incoming: Threads)
    requires AllCurrent(log, queue, threads) && AllCurrent(log, queue, incoming)
    ensures AllCurrent(log, queue, MergeDelta(threads, incoming))
  {
    hide Current;
    forall a, m | m in Thread(MergeDelta(threads, incoming), a) ensures Current(log, queue, m) {
      if a in incoming {
        SortRowsSorts(Thread(threads, a) + Unheld(IdSet(Thread(threads, a)), incoming[a]));
        assert m in Thread(threads, a) || m in Thread(incoming, a);
      } else {
        assert m in Thread(threads, a);
      }
    }
  }

  lemma InitKeepsCurrent(w: World)
    requires LinkCurrent(w) && w.link.init.Some?
    ensures LinkCurrent(DeliverInit(w, w.link.init.value, w.link.queue))
  {
    hide AllCurrent, QueueCurrent, MergeDelta, AllIds;
    var init := w.link.init.value;
    if init.delta { MergedIsCurrent(w.log, w.link.queue, w.chat.threads, init.threads); }
  }

  lemma QueueRest(log: seq<Msg>, queue: seq<Note>)
    requires QueueCurrent(log, queue) && |queue| > 0
    ensures QueueCurrent(log, queue[1..])
    ensures queue[0].Live? ==> Current(log, queue[1..], queue[0].row)
    ensures queue[0].Withdrawn? ==> queue[0].row in log
  {
    var rest := queue[1..];
    forall p | 0 <= p < |rest| && rest[p].Live? ensures Current(log, rest[p + 1..], rest[p].row) {
      assert rest[p] == queue[p + 1] && rest[p + 1..] == queue[p + 2..];
    }
    forall p | 0 <= p < |rest| && rest[p].Withdrawn? ensures rest[p].row in log && rest[p].row.withdrawn {
      assert rest[p] == queue[p + 1];
    }
  }

  lemma StillAnnounced(queue: seq<Note>, id: int)
    requires |queue| > 0 && Announced(queue, id) && !(queue[0].Withdrawn? && queue[0].row.id == id)
    ensures Announced(queue[1..], id)
  {
    var p :| 0 <= p < |queue| && queue[p].Withdrawn? && queue[p].row.id == id;
    assert queue[1..][p - 1] == queue[p];
  }

  lemma LiveKeepsCurrent(w: World)
    requires LinkCurrent(w) && w.link.init.None? && |w.link.queue| > 0 && w.link.queue[0].Live?
    ensures LinkCurrent(DeliverLive(w, w.link.queue[0].row, w.link.queue[1..]))
  {
    hide QueueCurrent, Receive, Announced;
    var m, queue := w.link.queue[0].row, w.link.queue;
    QueueRest(w.log, queue);
    var threads := OnMessage(w.chat, m).threads;
    forall a, x | x in Thread(threads, a) ensures Current(w.log, queue[1..], x) {
      ReceivedIsOldOrNew(Thread(w.chat.threads, m.agent), m);
      if x != m {
        assert x in Thread(w.chat.threads, a) && Current(w.log, queue, x);
        if x.id > 0 && x !in w.log { StillAnnounced(queue, x.id); }
      }
    }
  }

  lemma ReceivedIsOldOrNew(t: seq<Msg>, m: Msg)
    ensures forall x :: x in Receive(t, m) ==> x in t || x == m
  {
  }

  lemma SameRow(log: seq<Msg>, a: string, t: seq<Msg>, hi: int, x: Msg, m: Msg)
    requires LogGood(log) && GapFree(log, a, t, hi) && x in t && x.id == m.id > 0 && m in log
    ensures m.agent == a
  {
    var lo :| IsSegment(log, a, t, lo, hi);
    assert x.id in IdSet(t);
    var r :| r in log && r.agent == a && r.id == x.id;
    var i :| 0 <= i < |log| && log[i] == r;
    var j :| 0 <= j < |log| && log[j] == m;
    assert i == j;
  }

  /** Overwriting puts the row at its id, which stands once. */
  lemma OverwriteReplaces(t: seq<Msg>, m: Msg)
    requires Distinct(t) && m.id > 0
    ensures forall x :: x in Overwrite(t, m) ==> x == m || (x in t && x.id != m.id)
  {
    var k := FindId(t, m.id, 0);
    var r := Overwrite(t, m);
    forall x | x in r ensures x == m || (x in t && x.id != m.id) {
      var i :| 0 <= i < |r| && r[i] == x;
      if i != k { assert t[i] == x; }
    }
  }

  lemma WithdrawnKeepsCurrent(w: World)
    requires Good(w) && LinkCurrent(w) && w.link.init.None? && |w.link.queue| > 0 && w.link.queue[0].Withdrawn?
    ensures LinkCurrent(DeliverWithdrawn(w, w.link.queue[0].row, w.link.queue[1..]))
  {
    hide QueueCurrent, Announced, Overwrite, StoreGood, LinkGood, GapFree, LogGood;
    var m, queue := w.link.queue[0].row, w.link.queue;
    QueueRest(w.log, queue);
    assert m.id > 0 by { PositiveRow(w.log, m); }
    var threads := OnWithdrawn(w.chat.threads, m);
    forall a, x | x in Thread(threads, a) ensures Current(w.log, queue[1..], x) {
      var t := Thread(w.chat.threads, a);
      assert GapFree(w.log, a, t, w.known);
      assert Distinct(t) by { GapFreeIsDistinct(w.log, a, t, w.known); }
      OverwriteReplaces(t, m);
      if x != m {
        assert x in t && Current(w.log, queue, x);
        if x.id == m.id { SameRow(w.log, a, t, w.known, x, m); }
        if x.id > 0 && x !in w.log { StillAnnounced(queue, x.id); }
      }
    }
  }

  lemma PositiveRow(log: seq<Msg>, m: Msg)
    requires LogGood(log) && m in log
    ensures m.id > 0
  {
  }

  lemma GapFreeIsDistinct(log: seq<Msg>, a: string, t: seq<Msg>, hi: int)
    requires GapFree(log, a, t, hi)
    ensures Distinct(t)
  {
  }

  lemma SetThreadKeepsCurrent(w: World, agent: string, t: seq<Msg>)
    requires LinkCurrent(w) && forall x :: x in t ==> x in Thread(w.chat.threads, agent) || x.id < 0
    ensures LinkCurrent(SetThread(w, agent, t))
  {
    hide QueueCurrent, Announced;
    var threads := w.chat.threads[agent := t];
    if w.link.init.None? || w.link.init.value.delta {
      forall a, m | m in Thread(threads, a) ensures Current(w.log, w.link.queue, m) {
        assert m.id < 0 || m in Thread(w.chat.threads, a);
      }
    }
  }

  lemma DestroyedKeepsCurrent(w: World, agent: string)
    requires LinkCurrent(w)
    ensures LinkCurrent(w.(chat := w.chat.(threads := w.chat.threads - {agent})))
  {
    hide QueueCurrent, Current;
    var threads := w.chat.threads - {agent};
    if w.link.init.None? || w.link.init.value.delta {
      forall a, m | m in Thread(threads, a) ensures Current(w.log, w.link.queue, m) {
        assert m in Thread(w.chat.threads, a);
      }
    }
  }

  lemma RemovedIsLess(t: seq<Msg>, id: int)
    ensures forall x :: x in Remove(t, id) ==> x in t
  {
  }

  lemma StepKeepsCurrent(w: World, e: Event, w': World)
    requires Good(w) && LinkCurrent(w) && Step(w, e, w') && StaysUp(e)
    ensures LinkCurrent(w')
  {
    hide Good, LinkCurrent, Appended, MarkWithdrawn, SetThread, Remove, OnInit, OnMessage, OnWithdrawn, CapAll, IsMaxId;
    match e {
      case Append(row) => AppendKeepsCurrent(w, row);
      case Withdraw(at) => WithdrawKeepsCurrent(w, at);
      case Deliver =>
        match w.link.init {
          case Some(_) => InitKeepsCurrent(w);
          case None => if w.link.queue[0].Live? { LiveKeepsCurrent(w); } else { WithdrawnKeepsCurrent(w); }
        }
      case Send(row) => SetThreadKeepsCurrent(w, row.agent, Thread(w.chat.threads, row.agent) + [row]);
      case SendFailed(a, id) =>
        RemovedIsLess(Thread(w.chat.threads, a), id);
        SetThreadKeepsCurrent(w, a, Remove(Thread(w.chat.threads, a), id));
      case Destroyed(a) => DestroyedKeepsCurrent(w, a);
      case Persist => StoreIsApart(w, w');
      case PersistThreadsOnly => StoreIsApart(w, w');
      case ClearCache(_) => StoreIsApart(w, w');
    }
  }

  lemma StoreIsApart(w: World, w': World)
    requires LinkCurrent(w) && w'.log == w.log && w'.chat == w.chat && w'.link == w.link
    ensures LinkCurrent(w')
  {
  }

  /** Every server row the tab shows is the log's row. */
  ghost predicate Agrees(w: World) {
    forall a, m :: m in Thread(w.chat.threads, a) && m.id > 0 ==> m in w.log
  }

  lemma SentRowsAreInLog(log: seq<Msg>, since: int, a: string)
    ensures forall m :: m in Thread(ThreadsSince(log, since), a) ==> m in log
    ensures forall m :: m in Thread(Window(log), a) ==> m in log
  {
    hide SortRows, RowsAfter;
    SortRowsSorts(RowsAfter(log, a, 0));
    LastRows(SortRows(RowsAfter(log, a, 0)), PER_AGENT_CAP);
  }

  lemma LastRows(t: seq<Msg>, n: nat)
    ensures forall m :: m in LastN(t, n) ==> m in t
  {
  }

  lemma AcceptIsCurrent(w: World)
    requires w.link.Dialing? && (w.link.since > 0 ==> Agrees(w))
    ensures LinkCurrent(Accepted(w, w.link.since))
  {
    hide ThreadsSince, Window;
    var since := w.link.since;
    forall a, m | m in Thread(Greeting(w.log, since).threads, a) ensures m in w.log {
      SentRowsAreInLog(w.log, since, a);
    }
  }

  /** The steps i to j belong to one connection, accepted by step i. */
  ghost predicate OneConnection(ws: seq<World>, es: seq<Event>, i: nat, j: nat) {
    && IsRun(ws, es) && i < j <= |es| && es[i].Accept?
    && (forall k :: i < k < j ==> StaysUp(es[k]))
    && (forall k :: 0 <= k < |ws| ==> Good(ws[k]))
  }

  lemma {:induction false} ConnectionStaysCurrent(ws: seq<World>, es: seq<Event>, i: nat, j: nat)
    requires OneConnection(ws, es, i, j) && (ws[i].link.Dialing? && ws[i].link.since > 0 ==> Agrees(ws[i]))
    ensures LinkCurrent(ws[j])
    decreases j
  {
    hide Good, LinkCurrent, Agrees, Fresh, Accepted;
    assert Step(ws[i], es[i], ws[i + 1]);
    if j == i + 1 {
      AcceptIsCurrent(ws[i]);
    } else {
      ConnectionStaysCurrent(ws, es, i, j - 1);
      assert Step(ws[j - 1], es[j - 1], ws[j]);
      StepKeepsCurrent(ws[j - 1], es[j - 1], ws[j]);
    }
  }

  /**
   * As long as one connection lives, with nothing left in flight every server row shown is the very row
   * of the log: text, author, time and mark of withdrawal. A connection that starts with a delta has to
   * find the tab in agreement with the log.
   */
  lemma ConnectedShowsTheLog(ws: seq<World>, es: seq<Event>, i: nat, j: nat)
    requires OneConnection(ws, es, i, j) && (ws[i].link.Dialing? && ws[i].link.since > 0 ==> Agrees(ws[i]))
    requires ws[j].link == Up(None, [])
    ensures Agrees(ws[j])
  {
    hide Good, Step, Fresh;
    ConnectionStaysCurrent(ws, es, i, j);
    forall a, m | m in Thread(ws[j].chat.threads, a) && m.id > 0 ensures m in ws[j].log {
      assert Current(ws[j].log, [], m);
    }
  }

  // ── nothing is lost ──

  /** Every row of the agent that is wanted and was handed over is held. */
  ghost predicate Holds(w: World, a: string, want: iset<int>) {
    w.link.Up? && match w.link.init
      case None => forall r :: r in w.log && r.agent == a && r.id in want && r.id <= w.known ==> r.id in IdSet(Thread(w.chat.threads, a))
      case Some(init) =>
        !init.delta && forall r :: r in w.log && r.agent == a && r.id in want && r.id <= w.base ==> r.id in IdSet(Thread(init.threads, a))
  }

  lemma LogChangeHolds(w: World, w': World, a: string, want: iset<int>)
    requires Good(w) && Holds(w, a, want) && w'.chat == w.chat && w'.known == w.known && w'.base == w.base
    requires w'.link.Up? && w'.link.init == w.link.init
    requires forall r :: r in w'.log && r.id <= LastId(w.log) ==> exists q :: q in w.log && q.id == r.id && q.agent == r.agent
    ensures Holds(w', a, want)
  {
    hide LogGood, AllGapFree, StoreGood, QueueGood, InitGood;
  }

  lemma AppendHolds(w: World, row: Msg, a: string, want: iset<int>)
    requires Good(w) && Holds(w, a, want) && Legal(w, Append(row))
    ensures Holds(Appended(w, row), a, want)
  {
    hide LogGood, AllGapFree, StoreGood, LinkGood;
    forall r | r in Appended(w, row).log && r.id <= LastId(w.log) ensures exists q :: q in w.log && q.id == r.id && q.agent == r.agent {
      assert r in w.log;
    }
    LogChangeHolds(w, Appended(w, row), a, want);
  }

  lemma WithdrawHolds(w: World, at: nat, a: string, want: iset<int>)
    requires Good(w) && Holds(w, a, want) && at < |w.log|
    ensures Holds(MarkWithdrawn(w, at), a, want)
  {
    hide Good;
    var w' := MarkWithdrawn(w, at);
    forall r | r in w'.log ensures exists q :: q in w.log && q.id == r.id && q.agent == r.agent {
      var k :| 0 <= k < |w'.log| && w'.log[k] == r;
      assert w.log[k] in w.log;
    }
    hide Holds;
    LogChangeHolds(w, w', a, want);
  }

  lemma LiveHolds(w: World, a: string, want: iset<int>)
    requires Good(w) && Holds(w, a, want) && w.link.init.None? && |w.link.queue| > 0 && w.link.queue[0].Live?
    ensures Holds(DeliverLive(w, w.link.queue[0].row, w.link.queue[1..]), a, want)
  {
    hide AllGapFree, StoreGood, QueueGood, Receive, IdSet;
    var m := w.link.queue[0].row;
    QueuePops(w.log, w.base, w.link.queue);
    NextRows(w.log, m, w.base);
    ReceiveIds(Thread(w.chat.threads, m.agent), m);
  }

  lemma NextRows(log: seq<Msg>, m: Msg, base: int)
    requires LogGood(log) && IsNext(log, m, base)
    ensures m.id > base && forall r :: r in log && r.id <= m.id ==> r.id <= base || (r.id == m.id && r.agent == m.agent)
  {
  }

  lemma WithdrawnHolds(w: World, a: string, want: iset<int>)
    requires Good(w) && Holds(w, a, want) && w.link.init.None? && |w.link.queue| > 0 && w.link.queue[0].Withdrawn?
    ensures Holds(DeliverWithdrawn(w, w.link.queue[0].row, w.link.queue[1..]), a, want)
  {
    hide Good, IdSet, Overwrite;
    var m := w.link.queue[0].row;
    OverwriteIds(Thread(w.chat.threads, m.agent), m);
  }

  lemma SetThreadHolds(w: World, agent: string, t: seq<Msg>, a: string, want: iset<int>)
    requires Holds(w, a, want) && IdSet(Thread(w.chat.threads, agent)) <= IdSet(t)
    ensures Holds(SetThread(w, agent, t), a, want)
  {
    hide IdSet;
  }

  lemma RemovedIds(t: seq<Msg>, id: int)
    requires id < 0
    ensures IdSet(Remove(t, id)) == IdSet(t)
  {
    hide IdSet;
    var k := FindId(t, id, 0);
    if k >= 0 { CutOutIds(t, k); }
  }

  lemma StepHolds(w: World, e: Event, w': World, a: string, want: iset<int>)
    requires Good(w) && Holds(w, a, want) && Step(w, e, w') && StaysUp(e) && e != Destroyed(a)
    ensures Holds(w', a, want)
  {
    hide Good, Appended, MarkWithdrawn, SetThread, Remove, OnMessage, OnWithdrawn, CapAll, IsMaxId, IdSet, AllIds;
    match e {
      case Append(row) => AppendHolds(w, row, a, want);
      case Withdraw(at) => WithdrawHolds(w, at, a, want);
      case Deliver =>
        match w.link.init {
          case Some(_) =>
          case None => if w.link.queue[0].Live? { LiveHolds(w, a, want); } else { WithdrawnHolds(w, a, want); }
        }
      case Send(row) =>
        MoreIds(Thread(w.chat.threads, row.agent), row);
        SetThreadHolds(w, row.agent, Thread(w.chat.threads, row.agent) + [row], a, want);
      case SendFailed(b, id) =>
        RemovedIds(Thread(w.chat.threads, b), id);
        SetThreadHolds(w, b, Remove(Thread(w.chat.threads, b), id), a, want);
      case Destroyed(b) =>
      case Persist =>
      case PersistThreadsOnly =>
      case ClearCache(_) =>
    }
  }

  lemma MoreIds(t: seq<Msg>, m: Msg)
    ensures IdSet(t) <= IdSet(t + [m])
  {
  }

  /** The window of an agent is its newest rows: all of them, or two hundred. */
  lemma WindowIsNewest(log: seq<Msg>, a: string)
    requires LogGood(log)
    ensures |Thread(Window(log), a)| <= 200
    ensures |Thread(Window(log), a)| == 200 || forall m :: m in log && m.agent == a ==> m in Thread(Window(log), a)
    ensures forall m, r :: m in log && m.agent == a && r in Thread(Window(log), a) && m.id >= r.id ==> m.id in IdSet(Thread(Window(log), a))
  {
    hide SortRows, LogGood;
    var rows := RowsAfter(log, a, 0);
    SortRowsSorts(rows);
    assert |SortRows(rows)| == |rows| by { assert |multiset(SortRows(rows))| == |multiset(rows)|; }
    forall m | m in log ensures m.id > 0 { PositiveRow(log, m); }
    if |rows| <= 200 {
      forall m | m in log && m.agent == a ensures m in Thread(Window(log), a) {
        assert a in AgentsAfter(log, 0) && m in rows;
      }
    }
    WindowThread(log, a);
    var t := Thread(Window(log), a);
    var lo :| IsSegment(log, a, t, lo, LastId(log));
    forall m, r | m in log && m.agent == a && r in t && m.id >= r.id ensures m.id in IdSet(t) {
      WindowRowsArePositive(log, a, r);
      assert r.id in IdSet(t);
      LogRowsUpTo(log, m);
    }
  }

  lemma WindowRowsArePositive(log: seq<Msg>, a: string, r: Msg)
    requires LogGood(log) && r in Thread(Window(log), a)
    ensures r.id > 0
  {
    hide SortRows, RowsAfter, LogGood;
    SentRowsAreInLog(log, 0, a);
    PositiveRow(log, r);
  }

  /** What a connection that starts from nothing has to show of an agent. */
  ghost function Due(log: seq<Msg>, a: string): iset<int> {
    iset id | id in IdSet(Thread(Window(log), a)) || id > LastId(log)
  }

  lemma AcceptHolds(w: World, a: string)
    requires Good(w) && w.link == Dialing(0)
    ensures Holds(Accepted(w, 0), a, Due(w.log, a))
  {
    hide Good, Window;
  }

  lemma {:induction false} ConnectionHolds(ws: seq<World>, es: seq<Event>, i: nat, j: nat, a: string)
    requires OneConnection(ws, es, i, j) && ws[i].link == Dialing(0)
    requires forall k :: i < k < j ==> es[k] != Destroyed(a)
    ensures Holds(ws[j], a, Due(ws[i].log, a))
    decreases j
  {
    hide Good, Holds, Due, Fresh, Accepted;
    assert Step(ws[i], es[i], ws[i + 1]);
    if j == i + 1 {
      AcceptHolds(ws[i], a);
    } else {
      ConnectionHolds(ws, es, i, j - 1, a);
      assert Step(ws[j - 1], es[j - 1], ws[j]);
      StepHolds(ws[j - 1], es[j - 1], ws[j], a, Due(ws[i].log, a));
    }
  }

  /**
   * A connection that starts from nothing, once nothing is in flight: of every agent that was not
   * destroyed meanwhile the tab shows the newest 200 rows of the moment of connecting, and every row
   * since, each as it is in the log.
   */
  lemma ConnectedShowsEverything(ws: seq<World>, es: seq<Event>, i: nat, j: nat, a: string, m: Msg)
    requires OneConnection(ws, es, i, j) && ws[i].link == Dialing(0) && ws[j].link == Up(None, [])
    requires forall k :: i < k < j ==> es[k] != Destroyed(a)
    requires m in ws[j].log && m.agent == a && m.id in Due(ws[i].log, a)
    ensures m in Thread(ws[j].chat.threads, a)
  {
    hide Step, Fresh, Due, StoreGood, AllGapFree, LogGood, IdSet;
    ConnectionHolds(ws, es, i, j, a);
    ConnectedShowsTheLog(ws, es, i, j);
    assert m.id <= ws[j].known by { AllHandedOver(ws[j], m); }
    OneRowOfId(ws[j].log, Thread(ws[j].chat.threads, a), m);
  }

  lemma AllHandedOver(w: World, m: Msg)
    requires Good(w) && w.link == Up(None, []) && m in w.log
    ensures m.id <= w.known
  {
    hide AllGapFree, StoreGood;
  }

  lemma OneRowOfId(log: seq<Msg>, t: seq<Msg>, m: Msg)
    requires LogGood(log) && m in log && m.id in IdSet(t) && forall x :: x in t && x.id > 0 ==> x in log
    ensures m in t
  {
    var x :| x in t && x.id > 0 && x.id == m.id;
    var p :| 0 <= p < |log| && log[p] == x;
    var q :| 0 <= q < |log| && log[q] == m;
    assert p == q;
  }

  // ── what each step does ──

  /** The event that hands the head of the link to the tab. */
  function Handed(link: Link): WsEvent
    requires link.Up? && (link.init.Some? || link.queue != [])
  {
    match link.init
    case Some(init) => InitEvent(init.delta, init.threads, [])
    case None => match link.queue[0] case Live(m) => Message(m) case Withdrawn(m) => MessageWithdrawn(m)
  }

  /** What the step leaves alone. */
  ghost predicate Keeps(w: World, w': World, log: bool, chat: bool, store: bool, link: bool) {
    && (log ==> w'.log == w.log) && (chat ==> w'.chat == w.chat)
    && (store ==> w'.store == w.store) && (link ==> w'.link == w.link)
  }

  /** A note is queued behind the others, if a connection is there. */
  ghost predicate Queued(link: Link, n: Note, link': Link) {
    link' == if link.Up? then Up(link.init, link.queue + [n]) else link
  }

  /** Only that agent's thread is another one. */
  ghost predicate OneThread(threads: Threads, a: string, t: seq<Msg>, threads': Threads) {
    a in threads' && threads'[a] == t && forall b :: b != a ==> (b in threads' <==> b in threads) && Thread(threads', b) == Thread(threads, b)
  }

  /** The threads are cached, each cut to its newest 200 server rows. */
  ghost predicate Cached(threads: Threads, blob: Option<Threads>) {
    && blob.Some? && blob.value.Keys == threads.Keys
    && forall a :: a in threads ==> exists server, at :: CutTo(threads[a], server, at, blob.value[a])
  }

  ghost predicate CutTo(t: seq<Msg>, server: seq<Msg>, at: seq<nat>, cut: seq<Msg>) {
    KeepsServerRows(t, server, at) && cut == if |server| <= 200 then server else server[|server| - 200..]
  }

  lemma CapAllCached(threads: Threads)
    ensures Cached(threads, Some(CapAll(threads)))
  {
    hide KeepsServerRows;
    forall a | a in threads ensures exists server, at :: CutTo(threads[a], server, at, CapAll(threads)[a]) {
      var server, at := CapEffect(threads, a);
      assert CutTo(threads[a], server, at, CapAll(threads)[a]);
    }
  }

  /** What the server, the network, the tab and its cache look like after every step. */
  lemma StepEffect(w: World, e: Event, w': World)
    requires Step(w, e, w')
    ensures match e {
      case Append(row) =>
        Keeps(w, w', false, true, true, false) && w'.log == w.log + [row] && Queued(w.link, Live(row), w'.link)
      case Withdraw(at) =>
        var m := w.log[at];
        var gone := Msg(m.id, m.agent, m.direction, m.text, m.createdAt, true);
        Keeps(w, w', false, true, true, false) && w'.log == w.log[..at] + [gone] + w.log[at + 1..]
        && Queued(w.link, Withdrawn(gone), w'.link)
      case Dial =>
        Keeps(w, w', true, true, true, false) && w'.link == Dialing(if w.store.blob.Some? then w.store.watermark else 0)
      case Accept =>
        Keeps(w, w', true, true, true, false) && w'.link.Up? && w'.link.queue == []
        && w'.link.init.Some? && (w'.link.init.value.delta <==> w.link.since > 0)
      case Deliver =>
        Keeps(w, w', true, false, true, false)
        && w'.chat == Handle(Tab(w.chat, Roster([], map[], {})), Handed(w.link)).chat
        && w'.link == Up(None, if w.link.init.Some? then w.link.queue else w.link.queue[1..])
      case Drop => Keeps(w, w', true, true, true, false) && w'.link.Down?
      case Send(row) =>
        Keeps(w, w', true, false, true, true) && w'.chat.seen == w.chat.seen
        && OneThread(w.chat.threads, row.agent, Thread(w.chat.threads, row.agent) + [row], w'.chat.threads)
      case SendFailed(a, id) =>
        var t := Thread(w.chat.threads, a);
        Keeps(w, w', true, false, true, true) && w'.chat.seen == w.chat.seen
        && (forall k :: 0 <= k < |t| && t[k].id == id && FirstOfId(t, k) ==>
              OneThread(w.chat.threads, a, t[..k] + t[k + 1..], w'.chat.threads))
        && ((forall k :: 0 <= k < |t| ==> t[k].id != id) ==> OneThread(w.chat.threads, a, t, w'.chat.threads))
      case Destroyed(a) =>
        Keeps(w, w', true, false, true, true) && w'.chat.seen == w.chat.seen && w'.chat.threads == w.chat.threads - {a}
      case Persist =>
        Keeps(w, w', true, true, false, true) && Cached(w.chat.threads, w'.store.blob)
        && IsMaxId(w'.store.blob.value, w'.store.watermark)
      case PersistThreadsOnly =>
        Keeps(w, w', true, true, false, true) && Cached(w.chat.threads, w'.store.blob) && w'.store.watermark == w.store.watermark
      case ClearCache(both) =>
        Keeps(w, w', true, true, false, true) && w'.store == Store(None, if both then 0 else w.store.watermark)
      case Reload =>
        Keeps(w, w', true, false, true, false) && w'.link.Down? && w'.chat.seen == {}
        && w'.chat.threads == match w.store.blob case Some(t) => t case None => map[]
    }
  {
    hide Cached, FirstOfId, CapAll, IsMaxId, OnInit, OnMessage, OnWithdrawn, Window, ThreadsSince;
    CapAllCached(w.chat.threads);
    match e {
      case SendFailed(a, id) => RemoveEffect(Thread(w.chat.threads, a), id);
      case Withdraw(at) => assert w'.log == w.log[..at] + [w'.log[at]] + w.log[at + 1..];
      case _ =>
    }
  }
}
