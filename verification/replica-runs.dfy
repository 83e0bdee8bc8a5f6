/** The dashboard as a cached replica of the message log. */
module ReplicaRuns {
  import opened Options
  import opened MessageRows
  import opened DashboardSpec
  import opened ReplicaSegments

  datatype Init = Init(delta: bool, threads: Threads)

  datatype Note = Live(row: Msg) | Withdrawn(row: Msg)

  datatype Link =
    | Down
    | Dialing(since: int)
    | Up(init: Option<Init>, queue: seq<Note>)

  datatype Store = Store(blob: Option<Threads>, watermark: int)

  /**
   * One tab, its local cache and an unfiltered live stream, over every interleaving of server writes,
   * reconnects, reloads and interrupted cache writes.
   * `known`, `storeKnown` and `base` are history: the highest id the tab and the cached threads are
   * complete up to, and the last id before the live rows now in flight. `synced` says that the tab
   * has handled an `init` since it was loaded; nothing is persisted before that.
   */
  datatype World = World(log: seq<Msg>, chat: Chat, known: int, store: Store, storeKnown: int, link: Link, base: int,
                         synced: bool)

  datatype Event =
    | Append(row: Msg)
    | Withdraw(at: nat)
    | Dial
    | Accept
    | Deliver
    | Drop
    | Send(row: Msg)
    | SendFailed(agent: string, id: int)
    | Destroyed(agent: string)
    | Persist
    | PersistThreadsOnly
    | ClearCache(both: bool)
    | Reload

  // ── what the server sends ──

  function RowsAfter(log: seq<Msg>, agent: string, since: int): (r: seq<Msg>)
    ensures forall m :: m in r <==> m in log && m.agent == agent && m.id > since
  {
    if |log| == 0 then []
    else
      var last := log[|log| - 1];
      var rest := RowsAfter(log[..|log| - 1], agent, since);
      if last.agent == agent && last.id > since then rest + [last] else rest
  }

  function AgentsAfter(log: seq<Msg>, since: int): set<string> {
    set m | m in log && m.id > since :: m.agent
  }

  function ThreadsSince(log: seq<Msg>, since: int): Threads {
    map a | a in AgentsAfter(log, since) :: RowsAfter(log, a, since)
  }

  /** The newest rows of each agent by (createdAt, id), oldest first. */
  function Window(log: seq<Msg>): Threads {
    map a | a in AgentsAfter(log, 0) :: LastN(SortRows(RowsAfter(log, a, 0)), PER_AGENT_CAP)
  }

  function Greeting(log: seq<Msg>, since: int): Init {
    if since > 0 then Init(true, ThreadsSince(log, since)) else Init(false, Window(log))
  }

  // ── steps ──

  function Push(l: Link, n: Note): Link {
    match l
    case Up(init, queue) => Up(init, queue + [n])
    case _ => l
  }

  function Appended(w: World, row: Msg): World {
    w.(log := w.log + [row], link := Push(w.link, Live(row)))
  }

  function MarkWithdrawn(w: World, at: nat): World
    requires at < |w.log|
  {
    var row := w.log[at].(withdrawn := true);
    w.(log := w.log[at := row], link := Push(w.link, Withdrawn(row)))
  }

  /** The watermark `wsUrl` reads from the cache. */
  function CachedSince(s: Store): int {
    if s.blob.Some? then s.watermark else 0
  }

  function CachedThreads(s: Store): Threads {
    match s.blob
    case Some(t) => t
    case None => map[]
  }

  function Accepted(w: World, since: int): World {
    w.(link := Up(Some(Greeting(w.log, since)), []), base := LastId(w.log))
  }

  function DeliverInit(w: World, init: Init, queue: seq<Note>): World {
    w.(chat := OnInit(w.chat, init.delta, init.threads), known := w.base, link := Up(None, queue), synced := true)
  }

  function DeliverLive(w: World, m: Msg, rest: seq<Note>): World {
    w.(chat := OnMessage(w.chat, m), known := m.id, base := m.id, link := Up(None, rest))
  }

  function DeliverWithdrawn(w: World, m: Msg, rest: seq<Note>): World {
    w.(chat := w.chat.(threads := OnWithdrawn(w.chat.threads, m)), link := Up(None, rest))
  }

  function Delivered(w: World): World
    requires w.link.Up? && (w.link.init.Some? || |w.link.queue| > 0)
  {
    match w.link.init
    case Some(init) => DeliverInit(w, init, w.link.queue)
    case None =>
      match w.link.queue[0]
      case Live(m) => DeliverLive(w, m, w.link.queue[1..])
      case Withdrawn(m) => DeliverWithdrawn(w, m, w.link.queue[1..])
  }

  function SetThread(w: World, agent: string, t: seq<Msg>): World {
    w.(chat := w.chat.(threads := w.chat.threads[agent := t]))
  }

  function Persisted(w: World, maxId: int): World {
    w.(store := Store(Some(CapAll(w.chat.threads)), maxId), storeKnown := w.known)
  }

  function Reloaded(w: World): World {
    w.(chat := Chat(CachedThreads(w.store), {}), known := if w.store.blob.Some? then w.storeKnown else 0, link := Down,
       synced := false)
  }

  /** What the server, the network and the browser may do in `w`. */
  ghost predicate Legal(w: World, e: Event) {
    match e
    case Append(row) =>
      && row.id > LastId(w.log) && row.id > 0
      && forall m :: m in w.log ==> m.createdAt <= row.createdAt
    case Withdraw(at) => at < |w.log|
    case Dial => w.link.Down?
    case Accept => w.link.Dialing?
    case Deliver => w.link.Up? && (w.link.init.Some? || |w.link.queue| > 0)
    case Send(row) => row.id < 0
    case SendFailed(_, id) => id < 0
    case Persist => w.synced
    case PersistThreadsOnly => w.synced
    case _ => true
  }

  ghost predicate Step(w: World, e: Event, w': World) {
    && Legal(w, e)
    && match e {
      case Append(row) => w' == Appended(w, row)
      case Withdraw(at) => w' == MarkWithdrawn(w, at)
      case Dial => w' == w.(link := Dialing(CachedSince(w.store)))
      case Accept => w' == Accepted(w, w.link.since)
      case Deliver => w' == Delivered(w)
      case Drop => w' == w.(link := Down)
      case Send(row) => w' == SetThread(w, row.agent, Thread(w.chat.threads, row.agent) + [row])
      case SendFailed(a, id) => w' == SetThread(w, a, Remove(Thread(w.chat.threads, a), id))
      case Destroyed(a) => w' == w.(chat := w.chat.(threads := w.chat.threads - {a}))
      case Persist => exists m :: IsMaxId(CapAll(w.chat.threads), m) && w' == Persisted(w, m)
      case PersistThreadsOnly => w' == Persisted(w, w.store.watermark)
      case ClearCache(both) => w' == w.(store := Store(None, if both then 0 else w.store.watermark))
      case Reload => w' == Reloaded(w)
    }
  }

  // ── the invariant ──

  ghost predicate AllGapFree(log: seq<Msg>, threads: Threads, hi: int) {
    forall a :: GapFree(log, a, Thread(threads, a), hi)
  }

  ghost predicate StoreGood(log: seq<Msg>, s: Store, storeKnown: int, known: int) {
    s.blob.Some? ==> (s.watermark <= storeKnown <= known && AllGapFree(log, s.blob.value, storeKnown))
  }

  ghost predicate DeltaGood(log: seq<Msg>, threads: Threads, since: int, hi: int) {
    && (forall a :: a in threads ==> IsDelta(log, a, threads[a], since, hi))
    && (forall a :: a !in threads ==> IdsIn(log, a, since, hi) == {})
  }

  ghost predicate InitGood(log: seq<Msg>, init: Init, known: int, base: int) {
    if init.delta then exists since :: since <= known && DeltaGood(log, init.threads, since, base)
    else AllGapFree(log, init.threads, base)
  }

  function Lives(queue: seq<Note>): seq<Msg> {
    if |queue| == 0 then []
    else
      match queue[|queue| - 1]
      case Live(m) => Lives(queue[..|queue| - 1]) + [m]
      case Withdrawn(_) => Lives(queue[..|queue| - 1])
  }

  /** The rows in flight are exactly the log's rows after `base`. */
  ghost predicate InFlight(log: seq<Msg>, base: int, rows: seq<Msg>) {
    var n := |log| - |rows|;
    && n >= 0
    && (forall i :: 0 <= i < |rows| ==> SameStamp(rows[i], log[n + i]))
    && (forall k :: 0 <= k < |log| ==> (log[k].id > base <==> k >= n))
  }

  ghost predicate QueueGood(log: seq<Msg>, base: int, queue: seq<Note>) {
    && InFlight(log, base, Lives(queue))
    && (forall n :: n in queue && n.Withdrawn? ==> n.row.id > 0 && InLog(log, n.row))
  }

  ghost predicate LinkGood(log: seq<Msg>, link: Link, known: int, base: int) {
    match link
    case Down => true
    case Dialing(since) => 0 <= since <= known
    case Up(init, queue) =>
      && known <= base <= LastId(log)
      && QueueGood(log, base, queue)
      && match init {
        case Some(i) => InitGood(log, i, known, base)
        case None => base == known
      }
  }

  /** The watermark never leads a tab that may write the cache again. */
  ghost predicate WatermarkGood(w: World) {
    && 0 <= w.store.watermark <= LastId(w.log)
    && (w.link.Up? ==> w.store.watermark <= w.base)
    && (w.synced ==> w.store.watermark <= w.known)
  }

  ghost predicate Good(w: World) {
    && LogGood(w.log)
    && WatermarkGood(w)
    && 0 <= w.known <= LastId(w.log)
    && AllGapFree(w.log, w.chat.threads, w.known)
    && (forall id :: id in w.chat.seen ==> id <= w.known)
    && StoreGood(w.log, w.store, w.storeKnown, w.known)
    && LinkGood(w.log, w.link, w.known, w.base)
  }

  // ── order ──

  ghost predicate AllIncreasing(threads: Threads) {
    forall a :: Increasing(Thread(threads, a))
  }

  ghost predicate Ordered(w: World) {
    && AllIncreasing(w.chat.threads)
    && (w.store.blob.Some? ==> AllIncreasing(w.store.blob.value))
    && (w.link.Up? && w.link.init.Some? && !w.link.init.value.delta ==> AllIncreasing(w.link.init.value.threads))
  }

  /** Nothing the server numbered stands after the optimistic row that `m` replaces. */
  ghost predicate EchoInOrder(list: seq<Msg>, m: Msg) {
    var k := EchoSpot(list, m, |list| - 1);
    k >= 0 ==> forall j :: k < j < |list| ==> list[j].id <= 0
  }

  ghost predicate EchoesInOrder(w: World, e: Event) {
    e.Deliver? && w.link.Up? && w.link.init.None? && |w.link.queue| > 0 && w.link.queue[0].Live?
    ==> EchoInOrder(Thread(w.chat.threads, w.link.queue[0].row.agent), w.link.queue[0].row)
  }

  /** When the threads are written to the cache, each cut is safe. */
  ghost predicate CutsAreSafe(w: World, e: Event) {
    e.Persist? || e.PersistThreadsOnly? ==> forall a :: CapSafe(Thread(w.chat.threads, a))
  }

  // ── pieces of the invariant under each kind of change ──

  lemma AllGapFreeMoves(log: seq<Msg>, later: seq<Msg>, threads: Threads, hi: int)
    requires LogGood(log) && Extends(log, later) && hi <= LastId(log)
    requires AllGapFree(log, threads, hi)
    ensures AllGapFree(later, threads, hi)
  {
    hide GapFree, Extends, LogGood;
    forall a ensures GapFree(later, a, Thread(threads, a), hi) {
      GapFreeMoves(log, later, a, Thread(threads, a), hi);
    }
  }

  lemma DeltaMoves(log: seq<Msg>, later: seq<Msg>, threads: Threads, since: int, hi: int)
    requires LogGood(log) && Extends(log, later) && hi <= LastId(log)
    requires DeltaGood(log, threads, since, hi)
    ensures DeltaGood(later, threads, since, hi)
  {
    hide Extends, LogGood, Stamped, Distinct;
    forall a ensures IdsIn(log, a, since, hi) == IdsIn(later, a, since, hi) {
      IdsMove(log, later, a, since, hi);
    }
    forall a | a in threads ensures IsDelta(later, a, threads[a], since, hi) {
      StampedMoves(log, later, threads[a]);
    }
  }

  lemma InitMoves(log: seq<Msg>, later: seq<Msg>, init: Init, known: int, base: int)
    requires LogGood(log) && Extends(log, later) && base <= LastId(log)
    requires InitGood(log, init, known, base)
    ensures InitGood(later, init, known, base)
  {
    hide Extends, LogGood, AllGapFree, DeltaGood;
    if init.delta {
      var since :| since <= known && DeltaGood(log, init.threads, since, base);
      DeltaMoves(log, later, init.threads, since, base);
    } else {
      AllGapFreeMoves(log, later, init.threads, base);
    }
  }

  lemma StoreMoves(log: seq<Msg>, later: seq<Msg>, s: Store, storeKnown: int, known: int)
    requires LogGood(log) && Extends(log, later) && known <= LastId(log)
    requires StoreGood(log, s, storeKnown, known)
    ensures StoreGood(later, s, storeKnown, known)
  {
    hide Extends, LogGood, AllGapFree;
    if s.blob.Some? {
      AllGapFreeMoves(log, later, s.blob.value, storeKnown);
    }
  }

  lemma WithdrawnNotesMove(log: seq<Msg>, later: seq<Msg>, m: Msg)
    requires Extends(log, later) && InLog(log, m)
    ensures InLog(later, m)
  {
    var k :| 0 <= k < |log| && SameStamp(m, log[k]);
    assert SameStamp(m, later[k]);
  }

  lemma LastIdGrows(log: seq<Msg>, later: seq<Msg>)
    requires LogGood(log) && LogGood(later) && Extends(log, later)
    ensures LastId(log) <= LastId(later)
  {
    if |log| > 0 {
      assert SameStamp(log[|log| - 1], later[|log| - 1]);
    } else if |later| > 0 {
      assert later[|later| - 1].id > 0;
    }
  }

  /** Everything but the queue survives a change of the log. */
  lemma LogChangeKeeps(w: World, log: seq<Msg>)
    requires Good(w) && LogGood(log) && Extends(w.log, log)
    ensures 0 <= w.known <= LastId(log) && AllGapFree(log, w.chat.threads, w.known)
    ensures w.store.watermark <= LastId(log)
    ensures StoreGood(log, w.store, w.storeKnown, w.known)
    ensures w.link.Up? ==> w.base <= LastId(log)
    ensures w.link.Up? && w.link.init.Some? ==> InitGood(log, w.link.init.value, w.known, w.base)
  {
    hide AllGapFree, StoreGood, InitGood, LogGood, Extends, QueueGood;
    LastIdGrows(w.log, log);
    AllGapFreeMoves(w.log, log, w.chat.threads, w.known);
    StoreMoves(w.log, log, w.store, w.storeKnown, w.known);
    if w.link.Up? && w.link.init.Some? {
      InitMoves(w.log, log, w.link.init.value, w.known, w.base);
    }
  }

  lemma QueueAppends(log: seq<Msg>, base: int, queue: seq<Note>, row: Msg)
    requires LogGood(log) && QueueGood(log, base, queue) && base <= LastId(log)
    requires row.id > LastId(log) && Extends(log, log + [row])
    ensures QueueGood(log + [row], base, queue + [Live(row)])
  {
    var q := queue + [Live(row)];
    assert q[..|q| - 1] == queue;
    var rows := Lives(queue);
    assert Lives(q) == rows + [row];
    forall n | n in q && n.Withdrawn? ensures n.row.id > 0 && InLog(log + [row], n.row) {
      WithdrawnNotesMove(log, log + [row], n.row);
    }
  }

  lemma AppendKeepsGood(w: World, row: Msg)
    requires Good(w) && Legal(w, Append(row))
    ensures Good(Appended(w, row))
  {
    hide AllGapFree, StoreGood, InitGood, QueueGood;
    var log := w.log + [row];
    assert forall k :: 0 <= k < |w.log| ==> w.log[k] in w.log;
    assert LogGood(log) && Extends(w.log, log);
    LogChangeKeeps(w, log);
    if w.link.Up? {
      QueueAppends(w.log, w.base, w.link.queue, row);
    }
  }

  lemma QueueSeesWithdrawal(log: seq<Msg>, later: seq<Msg>, base: int, queue: seq<Note>, row: Msg)
    requires QueueGood(log, base, queue) && |log| == |later| && Extends(log, later)
    requires row.id > 0 && InLog(later, row)
    ensures QueueGood(later, base, queue + [Withdrawn(row)])
  {
    var q := queue + [Withdrawn(row)];
    assert q[..|q| - 1] == queue;
    assert Lives(q) == Lives(queue);
    forall k | 0 <= k < |log| ensures SameStamp(log[k], later[k]) {}
    forall n | n in q && n.Withdrawn? ensures n.row.id > 0 && InLog(later, n.row) {
      if n.row != row {
        WithdrawnNotesMove(log, later, n.row);
      }
    }
  }

  lemma WithdrawKeepsGood(w: World, at: nat)
    requires Good(w) && at < |w.log|
    ensures Good(MarkWithdrawn(w, at))
  {
    hide AllGapFree, StoreGood, InitGood, QueueGood;
    var row := w.log[at].(withdrawn := true);
    var log := w.log[at := row];
    assert LogGood(log) && Extends(w.log, log);
    LogChangeKeeps(w, log);
    assert SameStamp(row, log[at]);
    if w.link.Up? {
      QueueSeesWithdrawal(w.log, log, w.base, w.link.queue, row);
    }
  }

  // ── accepting a connection ──

  lemma {:induction false} RowsAfterOrder(log: seq<Msg>, agent: string, since: int)
    requires LogGood(log)
    ensures Distinct(RowsAfter(log, agent, since))
  {
    if |log| > 0 {
      var rest, last := log[..|log| - 1], log[|log| - 1];
      RowsAfterOrder(rest, agent, since);
      var r := RowsAfter(rest, agent, since);
      forall i | 0 <= i < |r| ensures r[i].id < last.id {
        assert r[i] in r;
      }
    }
  }

  lemma RowsAfterIsDelta(log: seq<Msg>, agent: string, since: int)
    requires LogGood(log) && 0 <= since
    ensures IsDelta(log, agent, RowsAfter(log, agent, since), since, LastId(log))
  {
    RowsAfterOrder(log, agent, since);
    var r := RowsAfter(log, agent, since);
    forall m | m in r ensures InLog(log, m) {
      var k :| 0 <= k < |log| && log[k] == m;
      assert SameStamp(m, log[k]);
    }
    forall m | m in log ensures 0 < m.id <= LastId(log) {
      LogRowsUpTo(log, m);
    }
    assert IsSegment(log, agent, r, since, LastId(log)) by {
      forall x | x in IdsIn(log, agent, since, LastId(log)) ensures x in IdSet(r) {
        var m :| m in log && m.agent == agent && m.id == x;
        assert m in r;
      }
    }
  }

  lemma NoRowsNoIds(log: seq<Msg>, agent: string, since: int)
    requires agent !in AgentsAfter(log, since)
    ensures IdsIn(log, agent, since, LastId(log)) == {}
  {
  }

  lemma ThreadsSinceIsDelta(log: seq<Msg>, since: int)
    requires LogGood(log) && 0 <= since
    ensures DeltaGood(log, ThreadsSince(log, since), since, LastId(log))
  {
    hide LogGood, IsDelta;
    var t := ThreadsSince(log, since);
    forall a | a in t ensures IsDelta(log, a, t[a], since, LastId(log)) {
      RowsAfterIsDelta(log, a, since);
    }
    forall a | a !in t ensures IdsIn(log, a, since, LastId(log)) == {} {
      NoRowsNoIds(log, a, since);
    }
  }

  lemma {:induction false} PositiveOfServerRows(t: seq<Msg>)
    requires forall m :: m in t ==> m.id > 0
    ensures Positive(t) == t
  {
    if |t| > 0 {
      PositiveOfServerRows(t[..|t| - 1]);
      assert t == t[..|t| - 1] + [t[|t| - 1]];
    }
  }

  lemma WindowThread(log: seq<Msg>, a: string)
    requires LogGood(log)
    ensures GapFree(log, a, Thread(Window(log), a), LastId(log)) && Increasing(Thread(Window(log), a))
  {
    hide LogGood, Distinct, Increasing, Stamped, Cap;
    if a in AgentsAfter(log, 0) {
      var rows := RowsAfter(log, a, 0);
      RowsAfterIsDelta(log, a, 0);
      var t := SortRows(rows);
      SortRowsSorts(rows);
      SortRowsDistinct(rows);
      assert Stamped(log, t) by { SortKeepsStamped(log, rows); }
      SortedIsIncreasing(log, t);
      assert IdSet(t) == IdSet(rows);
      assert IsSegment(log, a, t, 0, LastId(log));
      IncreasingIsCapSafe(t);
      CapIff(log, a, t, LastId(log));
      PositiveOfServerRows(t);
      assert LastN(t, PER_AGENT_CAP) == Cap(t) by { CapOfServerRows(t); }
    } else {
      EmptyIsGapFree(log, a, LastId(log));
      assert Increasing([]) by { NothingIncreases(); }
    }
  }

  lemma CapOfServerRows(t: seq<Msg>)
    requires Positive(t) == t
    ensures LastN(t, PER_AGENT_CAP) == Cap(t)
  {
  }

  lemma NothingIncreases()
    ensures Increasing([])
  {
  }

  lemma SortKeepsStamped(log: seq<Msg>, t: seq<Msg>)
    requires Stamped(log, t)
    ensures Stamped(log, SortRows(t))
  {
    SortRowsSorts(t);
  }

  lemma WindowIsGapFree(log: seq<Msg>)
    requires LogGood(log)
    ensures AllGapFree(log, Window(log), LastId(log)) && AllIncreasing(Window(log))
  {
    hide LogGood, GapFree, Increasing, Window;
    forall a ensures GapFree(log, a, Thread(Window(log), a), LastId(log)) && Increasing(Thread(Window(log), a)) {
      WindowThread(log, a);
    }
  }

  lemma NothingInFlight(log: seq<Msg>)
    requires LogGood(log)
    ensures QueueGood(log, LastId(log), [])
  {
    forall k | 0 <= k < |log| ensures log[k].id <= LastId(log) {
      assert log[k] in log;
      LogRowsUpTo(log, log[k]);
    }
  }

  lemma AcceptKeepsGood(w: World)
    requires Good(w) && w.link.Dialing?
    ensures Good(Accepted(w, w.link.since))
  {
    hide LogGood, AllGapFree, StoreGood, DeltaGood, QueueGood, ThreadsSince, Window;
    var since := w.link.since;
    NothingInFlight(w.log);
    if since > 0 {
      ThreadsSinceIsDelta(w.log, since);
    } else {
      WindowIsGapFree(w.log);
    }
  }

  // ── deliveries ──

  lemma MergedThread(log: seq<Msg>, threads: Threads, incoming: Threads, a: string, since: int, known: int, hi: int)
    requires AllGapFree(log, threads, known) && DeltaGood(log, incoming, since, hi) && since <= known <= hi
    ensures GapFree(log, a, Thread(MergeDelta(threads, incoming), a), hi)
  {
    hide GapFree, IsDelta, MergeThread;
    assert GapFree(log, a, Thread(threads, a), known);
    if a in incoming {
      MergeKeepsGapFree(log, a, Thread(threads, a), incoming[a], since, known, hi);
    } else {
      SilentThread(log, a, Thread(threads, a), since, known, hi);
    }
  }

  lemma SilentThread(log: seq<Msg>, a: string, t: seq<Msg>, since: int, known: int, hi: int)
    requires GapFree(log, a, t, known) && IdsIn(log, a, since, hi) == {} && since <= known <= hi
    ensures GapFree(log, a, t, hi)
  {
    hide Distinct, Stamped;
    var lo := LoBelowHi(log, a, t, known);
    forall k | k in IdsIn(log, a, lo, hi) ensures k in IdsIn(log, a, lo, known) {
      assert k > known ==> k in IdsIn(log, a, since, hi);
    }
    assert IdsIn(log, a, lo, hi) == IdsIn(log, a, lo, known);
    assert IsSegment(log, a, t, lo, hi);
  }

  lemma SeenUpTo(log: seq<Msg>, threads: Threads, hi: int)
    requires AllGapFree(log, threads, hi)
    ensures forall id :: id in AllIds(threads) ==> id <= hi
  {
    forall id | id in AllIds(threads) ensures id <= hi {
      var a, m :| a in threads && m in threads[a] && m.id > 0 && m.id == id;
      IdUpTo(log, a, Thread(threads, a), m, hi);
    }
  }

  lemma IdUpTo(log: seq<Msg>, a: string, t: seq<Msg>, m: Msg, hi: int)
    requires GapFree(log, a, t, hi) && m in t && m.id > 0
    ensures m.id <= hi
  {
    var lo :| IsSegment(log, a, t, lo, hi);
    assert m.id in IdSet(t);
  }

  lemma InitThreads(log: seq<Msg>, threads: Threads, init: Init, known: int, base: int)
    requires AllGapFree(log, threads, known) && InitGood(log, init, known, base) && known <= base
    ensures AllGapFree(log, if init.delta then MergeDelta(threads, init.threads) else init.threads, base)
  {
    hide GapFree, MergeDelta, DeltaGood;
    if init.delta {
      var since :| since <= known && DeltaGood(log, init.threads, since, base);
      forall a ensures GapFree(log, a, Thread(MergeDelta(threads, init.threads), a), base) {
        MergedThread(log, threads, init.threads, a, since, known, base);
      }
    }
  }

  lemma InitKeepsGood(w: World)
    requires Good(w) && w.link.Up? && w.link.init.Some?
    ensures Good(DeliverInit(w, w.link.init.value, w.link.queue))
  {
    hide LogGood, AllGapFree, QueueGood, InitGood, MergeDelta, AllIds;
    var init := w.link.init.value;
    InitThreads(w.log, w.chat.threads, init, w.known, w.base);
    var c := OnInit(w.chat, init.delta, init.threads);
    SeenUpTo(w.log, c.threads, w.base);
  }

  lemma {:induction false} LivesPop(queue: seq<Note>)
    requires |queue| > 0
    ensures Lives(queue) == (if queue[0].Live? then [queue[0].row] else []) + Lives(queue[1..])
  {
    if |queue| == 1 {
      assert queue[..0] == [];
    } else {
      var front := queue[..|queue| - 1];
      LivesPop(front);
      assert front[1..] == queue[1..][..|queue| - 2];
    }
  }

  lemma NextInFlight(log: seq<Msg>, base: int, m: Msg, rest: seq<Msg>)
    requires LogGood(log) && InFlight(log, base, [m] + rest)
    ensures IsNext(log, m, base) && InFlight(log, m.id, rest) && 0 < m.id <= LastId(log)
  {
    var rows := [m] + rest;
    var n := |log| - |rows|;
    assert SameStamp(rows[0], log[n + 0]);
    forall i | 0 <= i < |rest| ensures SameStamp(rest[i], log[n + 1 + i]) {
      assert rest[i] == rows[i + 1];
      assert SameStamp(rows[i + 1], log[n + (i + 1)]);
    }
    assert log[n] in log;
    LogRowsUpTo(log, log[n]);
  }

  lemma QueuePops(log: seq<Msg>, base: int, queue: seq<Note>)
    requires LogGood(log) && |queue| > 0 && QueueGood(log, base, queue)
    ensures queue[0].Live? ==>
      IsNext(log, queue[0].row, base) && QueueGood(log, queue[0].row.id, queue[1..]) && 0 < queue[0].row.id <= LastId(log)
    ensures queue[0].Withdrawn? ==>
      QueueGood(log, base, queue[1..]) && queue[0].row.id > 0 && InLog(log, queue[0].row)
  {
    hide LogGood, InFlight, IsNext, InLog;
    LivesPop(queue);
    assert queue[0] in queue;
    match queue[0] {
      case Live(m) => NextInFlight(log, base, m, Lives(queue[1..]));
      case Withdrawn(m) => assert Lives(queue) == Lives(queue[1..]);
    }
  }

  lemma ReceivedThreads(log: seq<Msg>, c: Chat, m: Msg, hi: int)
    requires AllGapFree(log, c.threads, hi) && IsNext(log, m, hi) && m.id > 0 && m.id !in c.seen
    ensures AllGapFree(log, OnMessage(c, m).threads, m.id)
  {
    hide GapFree, IsNext, Receive;
    var threads := OnMessage(c, m).threads;
    forall a ensures GapFree(log, a, Thread(threads, a), m.id) {
      assert GapFree(log, a, Thread(c.threads, a), hi);
      if a == m.agent {
        ReceiveKeepsGapFree(log, Thread(c.threads, a), m, hi);
      } else {
        OthersKeepGapFree(log, a, Thread(c.threads, a), m, hi);
      }
    }
  }

  lemma LiveKeepsGood(w: World)
    requires Good(w) && w.link.Up? && w.link.init.None? && |w.link.queue| > 0 && w.link.queue[0].Live?
    ensures Good(DeliverLive(w, w.link.queue[0].row, w.link.queue[1..]))
  {
    hide LogGood, AllGapFree, QueueGood, Receive;
    var m := w.link.queue[0].row;
    QueuePops(w.log, w.base, w.link.queue);
    ReceivedThreads(w.log, w.chat, m, w.known);
  }

  lemma OverwriteKeepsGapFree(log: seq<Msg>, a: string, t: seq<Msg>, m: Msg, hi: int)
    requires GapFree(log, a, t, hi) && m.id > 0 && InLog(log, m)
    ensures GapFree(log, a, Overwrite(t, m), hi)
  {
    var lo :| IsSegment(log, a, t, lo, hi);
    var r := Overwrite(t, m);
    OverwriteIds(t, m);
    assert IsSegment(log, a, r, lo, hi);
  }

  lemma WithdrawnKeepsGood(w: World)
    requires Good(w) && w.link.Up? && w.link.init.None? && |w.link.queue| > 0 && w.link.queue[0].Withdrawn?
    ensures Good(DeliverWithdrawn(w, w.link.queue[0].row, w.link.queue[1..]))
  {
    hide LogGood, GapFree, QueueGood, Overwrite;
    var m := w.link.queue[0].row;
    QueuePops(w.log, w.base, w.link.queue);
    var threads := OnWithdrawn(w.chat.threads, m);
    forall a ensures GapFree(w.log, a, Thread(threads, a), w.known) {
      assert GapFree(w.log, a, Thread(w.chat.threads, a), w.known);
      if a == m.agent && a in w.chat.threads {
        OverwriteKeepsGapFree(w.log, a, w.chat.threads[a], m, w.known);
      }
    }
  }

  lemma DeliverKeepsGood(w: World)
    requires Good(w) && Legal(w, Deliver)
    ensures Good(Delivered(w))
  {
    hide Good, OnInit, OnMessage, OnWithdrawn;
    match w.link.init {
      case Some(init) => InitKeepsGood(w);
      case None => {
        match w.link.queue[0] {
          case Live(m) => LiveKeepsGood(w);
          case Withdrawn(m) => WithdrawnKeepsGood(w);
        }
      }
    }
  }

  // ── optimistic rows, removal, the cache ──

  lemma OptimisticKeepsGapFree(log: seq<Msg>, a: string, t: seq<Msg>, m: Msg, hi: int)
    requires GapFree(log, a, t, hi) && m.id < 0
    ensures GapFree(log, a, t + [m], hi)
  {
    var lo :| IsSegment(log, a, t, lo, hi);
    assert IdSet(t + [m]) == IdSet(t);
    assert IsSegment(log, a, t + [m], lo, hi);
  }

  lemma CutOut(t: seq<Msg>, k: nat)
    requires k < |t|
    ensures Distinct(t) ==> Distinct(t[..k] + t[k + 1..])
    ensures Increasing(t) ==> Increasing(t[..k] + t[k + 1..])
  {
    var r := t[..k] + t[k + 1..];
    assert forall i :: 0 <= i < |r| ==> r[i] == t[if i < k then i else i + 1];
  }

  lemma CutOutIds(t: seq<Msg>, k: nat)
    requires k < |t| && t[k].id < 0
    ensures IdSet(t[..k] + t[k + 1..]) == IdSet(t)
    ensures forall x :: x in t[..k] + t[k + 1..] ==> x in t
  {
    assert t == t[..k] + [t[k]] + t[k + 1..];
  }

  lemma RemoveKeepsGapFree(log: seq<Msg>, a: string, t: seq<Msg>, id: int, hi: int)
    requires GapFree(log, a, t, hi) && id < 0
    ensures GapFree(log, a, Remove(t, id), hi)
  {
    hide Distinct, Increasing, IdSet;
    var lo :| IsSegment(log, a, t, lo, hi);
    var k := FindId(t, id, 0);
    if k >= 0 {
      CutOut(t, k);
      CutOutIds(t, k);
      assert IsSegment(log, a, Remove(t, id), lo, hi);
    }
  }

  lemma SetThreadKeepsGood(w: World, agent: string, t: seq<Msg>)
    requires Good(w) && GapFree(w.log, agent, t, w.known)
    ensures Good(SetThread(w, agent, t))
  {
    hide LogGood, GapFree, StoreGood, LinkGood;
    var threads := w.chat.threads[agent := t];
    forall a ensures GapFree(w.log, a, Thread(threads, a), w.known) {
      assert GapFree(w.log, a, Thread(w.chat.threads, a), w.known);
    }
  }

  lemma DestroyKeepsGood(w: World, agent: string)
    requires Good(w)
    ensures Good(w.(chat := w.chat.(threads := w.chat.threads - {agent})))
  {
    hide LogGood, GapFree, StoreGood, LinkGood;
    var threads := w.chat.threads - {agent};
    forall a ensures GapFree(w.log, a, Thread(threads, a), w.known) {
      assert GapFree(w.log, a, Thread(w.chat.threads, a), w.known);
      if a == agent {
        EmptyIsGapFree(w.log, a, w.known);
      }
    }
  }

  lemma CappedThreads(log: seq<Msg>, threads: Threads, hi: int)
    requires AllGapFree(log, threads, hi) && forall a :: CapSafe(Thread(threads, a))
    ensures AllGapFree(log, CapAll(threads), hi)
  {
    hide GapFree, CapSafe, Cap;
    forall a ensures GapFree(log, a, Thread(CapAll(threads), a), hi) {
      assert GapFree(log, a, Thread(threads, a), hi);
      if a in threads {
        CapIff(log, a, threads[a], hi);
        assert CapSafe(Thread(threads, a));
      } else {
        EmptyIsGapFree(log, a, hi);
      }
    }
  }

  lemma PersistKeepsGood(w: World, m: int)
    requires Good(w) && CutsAreSafe(w, Persist)
    requires IsMaxId(CapAll(w.chat.threads), m) || (m == w.store.watermark && w.synced)
    ensures Good(Persisted(w, m))
  {
    hide LogGood, AllGapFree, QueueGood, InitGood, CapAll, AllIds;
    CappedThreads(w.log, w.chat.threads, w.known);
    SeenUpTo(w.log, CapAll(w.chat.threads), w.known);
  }

  lemma ReloadKeepsGood(w: World)
    requires Good(w)
    ensures Good(Reloaded(w))
  {
    hide LogGood, GapFree;
    if w.store.blob.None? {
      forall a ensures GapFree(w.log, a, Thread(map[], a), 0) {
        EmptyIsGapFree(w.log, a, 0);
      }
    }
  }

  lemma SendKeepsGood(w: World, row: Msg)
    requires Good(w) && row.id < 0
    ensures Good(SetThread(w, row.agent, Thread(w.chat.threads, row.agent) + [row]))
  {
    hide LogGood, GapFree, StoreGood, LinkGood, SetThread;
    assert GapFree(w.log, row.agent, Thread(w.chat.threads, row.agent), w.known);
    OptimisticKeepsGapFree(w.log, row.agent, Thread(w.chat.threads, row.agent), row, w.known);
    SetThreadKeepsGood(w, row.agent, Thread(w.chat.threads, row.agent) + [row]);
  }

  lemma SendFailedKeepsGood(w: World, a: string, id: int)
    requires Good(w) && id < 0
    ensures Good(SetThread(w, a, Remove(Thread(w.chat.threads, a), id)))
  {
    hide LogGood, GapFree, StoreGood, LinkGood, SetThread, Remove;
    assert GapFree(w.log, a, Thread(w.chat.threads, a), w.known);
    RemoveKeepsGapFree(w.log, a, Thread(w.chat.threads, a), id, w.known);
    SetThreadKeepsGood(w, a, Remove(Thread(w.chat.threads, a), id));
  }

  lemma LinkChangeKeepsGood(w: World, e: Event, w': World)
    requires Good(w) && Step(w, e, w') && (e.Dial? || e.Drop? || e.ClearCache?)
    ensures Good(w')
  {
    hide LogGood, AllGapFree, QueueGood, InitGood, Delivered, Persisted, Reloaded, MarkWithdrawn, Appended, Accepted;
  }

  /** Every step keeps every thread, the cache and the messages in flight complete, if cuts are safe. */
  lemma StepKeepsGood(w: World, e: Event, w': World)
    requires Good(w) && Step(w, e, w') && CutsAreSafe(w, e)
    ensures Good(w')
  {
    hide Good, Delivered, Persisted, Reloaded, MarkWithdrawn, Appended, Accepted, SetThread, CutsAreSafe, IsMaxId, CapAll,
         Remove;
    match e {
      case Append(row) => AppendKeepsGood(w, row);
      case Withdraw(at) => WithdrawKeepsGood(w, at);
      case Dial => LinkChangeKeepsGood(w, e, w');
      case Accept => AcceptKeepsGood(w);
      case Deliver => DeliverKeepsGood(w);
      case Drop => LinkChangeKeepsGood(w, e, w');
      case Send(row) => SendKeepsGood(w, row);
      case SendFailed(a, id) => SendFailedKeepsGood(w, a, id);
      case Destroyed(a) => DestroyKeepsGood(w, a);
      case Persist => {
        assert CutsAreSafe(w, Persist);
        var m :| IsMaxId(CapAll(w.chat.threads), m) && w' == Persisted(w, m);
        PersistKeepsGood(w, m);
      }
      case PersistThreadsOnly => {
        SameCuts(w);
        PersistKeepsGood(w, w.store.watermark);
      }
      case ClearCache(_) => LinkChangeKeepsGood(w, e, w');
      case Reload => ReloadKeepsGood(w);
    }
  }

  lemma SameCuts(w: World)
    requires CutsAreSafe(w, PersistThreadsOnly)
    ensures CutsAreSafe(w, Persist)
  {
  }

  // ── order ──

  /** Receiving a row newer than all others keeps the order exactly when its echo stands last. */
  lemma ReceiveInOrderIff(t: seq<Msg>, m: Msg)
    requires Increasing(t) && m.id > 0 && forall x :: x in t ==> x.id < m.id
    ensures Increasing(Receive(t, m)) <==> EchoInOrder(t, m)
  {
    var k := EchoSpot(t, m, |t| - 1);
    var r := Receive(t, m);
    if k >= 0 {
      if EchoInOrder(t, m) {
        forall i, j | 0 <= i < j < |r| && r[i].id > 0 && r[j].id > 0 ensures r[i].id < r[j].id {
          assert i != k;
          assert t[i] in t;
        }
      } else {
        var j :| k < j < |t| && t[j].id > 0;
        assert t[j] in t && r[k] == m && r[j] == t[j];
      }
    } else {
      forall i | 0 <= i < |t| ensures r[i].id < m.id {
        assert t[i] in t;
      }
    }
  }

  lemma LiveKeepsOrder(w: World)
    requires Good(w) && Ordered(w) && EchoesInOrder(w, Deliver)
    requires w.link.Up? && w.link.init.None? && |w.link.queue| > 0 && w.link.queue[0].Live?
    ensures Ordered(DeliverLive(w, w.link.queue[0].row, w.link.queue[1..]))
  {
    hide LogGood, GapFree, StoreGood, Receive, Increasing, EchoInOrder, QueueGood;
    var m := w.link.queue[0].row;
    var t := Thread(w.chat.threads, m.agent);
    QueuePops(w.log, w.base, w.link.queue);
    assert GapFree(w.log, m.agent, t, w.known) && Increasing(t);
    forall x | x in t ensures x.id < m.id {
      if x.id > 0 {
        IdUpTo(w.log, m.agent, t, x, w.known);
      }
    }
    ReceiveInOrderIff(t, m);
    var threads := OnMessage(w.chat, m).threads;
    forall a ensures Increasing(Thread(threads, a)) {
      assert Increasing(Thread(w.chat.threads, a));
    }
  }

  lemma MergedOrder(log: seq<Msg>, threads: Threads, incoming: Threads, a: string, since: int, known: int, hi: int)
    requires LogGood(log) && AllGapFree(log, threads, known) && DeltaGood(log, incoming, since, hi)
    requires AllIncreasing(threads)
    ensures Increasing(Thread(MergeDelta(threads, incoming), a))
  {
    hide LogGood, Increasing, MergeThread, Stamped, Distinct;
    assert GapFree(log, a, Thread(threads, a), known);
    assert Increasing(Thread(threads, a));
    if a in incoming {
      MergeIncreases(log, Thread(threads, a), incoming[a]);
    }
  }

  lemma InitKeepsOrder(w: World)
    requires Good(w) && Ordered(w) && w.link.Up? && w.link.init.Some?
    ensures Ordered(DeliverInit(w, w.link.init.value, w.link.queue))
  {
    hide LogGood, AllGapFree, QueueGood, StoreGood, DeltaGood, MergeDelta, Increasing;
    var init := w.link.init.value;
    if init.delta {
      var since :| since <= w.known && DeltaGood(w.log, init.threads, since, w.base);
      forall a ensures Increasing(Thread(MergeDelta(w.chat.threads, init.threads), a)) {
        MergedOrder(w.log, w.chat.threads, init.threads, a, since, w.known, w.base);
      }
    }
  }

  lemma SameIdsSameOrder(t: seq<Msg>, r: seq<Msg>)
    requires |t| == |r| && (forall i :: 0 <= i < |t| ==> t[i].id == r[i].id) && Increasing(t)
    ensures Increasing(r)
  {
  }

  lemma WithdrawnKeepsOrder(w: World, m: Msg)
    requires AllIncreasing(w.chat.threads)
    ensures AllIncreasing(OnWithdrawn(w.chat.threads, m))
  {
    hide Increasing, Overwrite;
    var threads := OnWithdrawn(w.chat.threads, m);
    forall a ensures Increasing(Thread(threads, a)) {
      assert Increasing(Thread(w.chat.threads, a));
      OverwriteIds(Thread(w.chat.threads, a), m);
      SameIdsSameOrder(Thread(w.chat.threads, a), Overwrite(Thread(w.chat.threads, a), m));
    }
  }

  lemma DeliverKeepsOrder(w: World)
    requires Good(w) && Ordered(w) && Legal(w, Deliver) && EchoesInOrder(w, Deliver)
    ensures Ordered(Delivered(w))
  {
    hide Good, OnInit, OnMessage, OnWithdrawn, AllIncreasing, EchoesInOrder;
    match w.link.init {
      case Some(init) => InitKeepsOrder(w);
      case None => {
        match w.link.queue[0] {
          case Live(m) => LiveKeepsOrder(w);
          case Withdrawn(m) => WithdrawnKeepsOrder(w, m);
        }
      }
    }
  }

  lemma SetThreadKeepsOrder(w: World, agent: string, t: seq<Msg>)
    requires Ordered(w) && Increasing(t)
    ensures Ordered(SetThread(w, agent, t))
  {
    hide Increasing;
    var threads := w.chat.threads[agent := t];
    forall a ensures Increasing(Thread(threads, a)) {
      assert Increasing(Thread(w.chat.threads, a));
    }
  }

  lemma OptimisticKeepsOrder(t: seq<Msg>, m: Msg)
    requires Increasing(t) && m.id < 0
    ensures Increasing(t + [m])
  {
  }

  lemma DestroyKeepsOrder(threads: Threads, agent: string)
    requires AllIncreasing(threads)
    ensures AllIncreasing(threads - {agent})
  {
    hide Increasing;
    forall a ensures Increasing(Thread(threads - {agent}, a)) {
      assert Increasing(Thread(threads, a));
      if a == agent {
        NothingIncreases();
      }
    }
  }

  lemma OrderedIsSafe(threads: Threads)
    requires AllIncreasing(threads)
    ensures AllIncreasing(CapAll(threads)) && forall a :: CapSafe(Thread(threads, a))
  {
    hide Increasing, CapSafe, Cap;
    forall a ensures Increasing(Thread(CapAll(threads), a)) && CapSafe(Thread(threads, a)) {
      assert Increasing(Thread(threads, a));
      IncreasingIsCapSafe(Thread(threads, a));
      if a !in threads {
        NothingIncreases();
      }
    }
  }

  lemma AcceptKeepsOrder(w: World)
    requires Good(w) && Ordered(w) && w.link.Dialing?
    ensures Ordered(Accepted(w, w.link.since))
  {
    hide LogGood, AllGapFree, StoreGood, ThreadsSince, Window, AllIncreasing;
    WindowIsGapFree(w.log);
  }

  lemma ReloadKeepsOrder(w: World)
    requires Ordered(w)
    ensures Ordered(Reloaded(w))
  {
    hide Increasing;
    NothingIncreases();
  }

  /** Every step keeps every thread in order, if each echo delivered stands last. */
  lemma RemoveKeepsOrder(w: World, a: string, id: int)
    requires Ordered(w)
    ensures Increasing(Remove(Thread(w.chat.threads, a), id))
  {
    hide Increasing, Ordered;
    var t := Thread(w.chat.threads, a);
    ThreadInOrder(w, a);
    var k := FindId(t, id, 0);
    if k >= 0 {
      CutOut(t, k);
    }
  }

  lemma StepKeepsOrder(w: World, e: Event, w': World)
    requires Good(w) && Ordered(w) && Step(w, e, w') && EchoesInOrder(w, e)
    ensures Ordered(w')
  {
    hide Good, Ordered, Delivered, Reloaded, MarkWithdrawn, Appended, Accepted, SetThread, EchoesInOrder, IsMaxId, CapAll,
         Remove, AllIncreasing, Increasing, Persisted;
    match e {
      case Append(_) => QuietStepKeepsOrder(w, e, w');
      case Withdraw(_) => QuietStepKeepsOrder(w, e, w');
      case Dial => QuietStepKeepsOrder(w, e, w');
      case Accept => AcceptKeepsOrder(w);
      case Deliver => DeliverKeepsOrder(w);
      case Drop => QuietStepKeepsOrder(w, e, w');
      case Send(row) => {
        ThreadInOrder(w, row.agent);
        OptimisticKeepsOrder(Thread(w.chat.threads, row.agent), row);
        SetThreadKeepsOrder(w, row.agent, Thread(w.chat.threads, row.agent) + [row]);
      }
      case SendFailed(a, id) => {
        RemoveKeepsOrder(w, a, id);
        SetThreadKeepsOrder(w, a, Remove(Thread(w.chat.threads, a), id));
      }
      case Destroyed(a) => QuietStepKeepsOrder(w, e, w');
      case Persist => QuietStepKeepsOrder(w, e, w');
      case PersistThreadsOnly => QuietStepKeepsOrder(w, e, w');
      case ClearCache(_) => QuietStepKeepsOrder(w, e, w');
      case Reload => ReloadKeepsOrder(w);
    }
  }

  lemma ThreadInOrder(w: World, a: string)
    requires Ordered(w)
    ensures Increasing(Thread(w.chat.threads, a))
  {
  }

  lemma QuietStepKeepsOrder(w: World, e: Event, w': World)
    requires Ordered(w) && Step(w, e, w')
    requires e.Append? || e.Withdraw? || e.Dial? || e.Drop? || e.Destroyed? || e.Persist? || e.PersistThreadsOnly? || e.ClearCache?
    ensures Ordered(w')
  {
    hide Legal, AllIncreasing, CapAll, IsMaxId, Delivered, Reloaded, Accepted, SetThread;
    OrderedIsSafe(w.chat.threads);
    if e.Destroyed? {
      DestroyKeepsOrder(w.chat.threads, e.agent);
    }
  }

  // ── runs ──

  ghost predicate Fresh(w: World) {
    && LogGood(w.log)
    && w.chat == Chat(map[], {}) && w.known == 0
    && w.store == Store(None, 0) && w.link == Down && !w.synced
  }

  ghost predicate IsRun(ws: seq<World>, es: seq<Event>) {
    && |ws| == |es| + 1
    && Fresh(ws[0])
    && forall i :: 0 <= i < |es| ==> Step(ws[i], es[i], ws[i + 1])
  }

  lemma FreshIsGood(w: World)
    requires Fresh(w)
    ensures Good(w) && Ordered(w)
  {
    forall a ensures GapFree(w.log, a, Thread(w.chat.threads, a), 0) {
      EmptyIsGapFree(w.log, a, 0);
    }
    if |w.log| > 0 {
      assert w.log[|w.log| - 1].id > 0;
    }
  }

  /**
   * Along any run in which every delivered echo finds its optimistic row last, every thread is at
   * every moment an ordered, gap-free stretch of the server's rows up to the highest id received.
   */
  lemma {:induction false} RunStaysGapFree(ws: seq<World>, es: seq<Event>)
    requires IsRun(ws, es)
    requires forall i :: 0 <= i < |es| ==> EchoesInOrder(ws[i], es[i])
    ensures forall i :: 0 <= i < |ws| ==> Good(ws[i]) && Ordered(ws[i])
  {
    hide Good, Ordered, Step, EchoesInOrder, Fresh;
    if |es| == 0 {
      FreshIsGood(ws[0]);
    } else {
      var n := |es| - 1;
      RunStaysGapFree(ws[..|es|], es[..n]);
      var w := ws[..|es|][n];
      SafeCuts(w, es[n]);
      StepKeepsGood(w, es[n], ws[n + 1]);
      StepKeepsOrder(w, es[n], ws[n + 1]);
    }
  }

  lemma SafeCuts(w: World, e: Event)
    requires Ordered(w)
    ensures CutsAreSafe(w, e)
  {
    OrderedIsSafe(w.chat.threads);
  }

  /** Without any assumption on echoes, completeness (not order) needs only that each cut is safe. */
  lemma {:induction false} RunStaysComplete(ws: seq<World>, es: seq<Event>)
    requires IsRun(ws, es)
    requires forall i :: 0 <= i < |es| ==> CutsAreSafe(ws[i], es[i])
    ensures forall i :: 0 <= i < |ws| ==> Good(ws[i])
  {
    hide Good, Ordered, Step, CutsAreSafe, Fresh;
    if |es| == 0 {
      FreshIsGood(ws[0]);
    } else {
      var n := |es| - 1;
      RunStaysComplete(ws[..|es|], es[..n]);
      StepKeepsGood(ws[..|es|][n], es[n], ws[n + 1]);
    }
  }

  /** With nothing left in flight, every thread runs up to the server's newest row. */
  lemma CaughtUp(w: World, agent: string)
    requires Good(w) && w.link == Up(None, [])
    ensures GapFree(w.log, agent, Thread(w.chat.threads, agent), LastId(w.log))
  {
    hide GapFree;
    assert GapFree(w.log, agent, Thread(w.chat.threads, agent), w.known);
    if |w.log| > 0 {
      assert w.log[|w.log| - 1].id <= w.base;
    }
  }
}
