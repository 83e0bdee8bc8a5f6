/** Paging backwards through the merged message feed. */
module FeedPaging {
  import opened Options

  datatype Row = Row(id: int, agent: string, queueId: Option<int>, createdAt: int)

  /** The two rows of one queued message share its queue id; any other row stands alone. */
  datatype Key = Queued(queueId: int) | Alone(id: int)

  /** Which row of a group stands for it. The query's comment asks for the smallest id. */
  datatype Pick = MinId | MaxId

  datatype Page = Page(messages: seq<Row>, hasMore: bool)

  function KeyOf(r: Row): Key {
    match r.queueId
    case Some(q) => Queued(q)
    case None => Alone(r.id)
  }

  /** No agents means all agents. */
  predicate Wanted(agents: set<string>, r: Row) {
    agents == {} || r.agent in agents
  }

  predicate Below(before: Option<int>, id: int) {
    before.Some? ==> id < before.value
  }

  function Eligible(log: seq<Row>, agents: set<string>, before: Option<int>): (e: seq<Row>)
    ensures forall r :: r in e <==> r in log && Wanted(agents, r) && Below(before, r.id)
  {
    if |log| == 0 then []
    else
      var last := log[|log| - 1];
      var rest := Eligible(log[..|log| - 1], agents, before);
      if Wanted(agents, last) && Below(before, last.id) then rest + [last] else rest
  }

  function GroupAt(groups: seq<Row>, key: Key): (k: int)
    ensures -1 <= k < |groups|
    ensures k >= 0 ==> KeyOf(groups[k]) == key
    ensures k == -1 ==> forall g :: g in groups ==> KeyOf(g) != key
  {
    if |groups| == 0 then -1
    else if KeyOf(groups[|groups| - 1]) == key then |groups| - 1
    else GroupAt(groups[..|groups| - 1], key)
  }

  predicate Preferred(pick: Pick, a: Row, b: Row) {
    if pick.MinId? then a.id < b.id else a.id > b.id
  }

  /** `GROUP BY`: one row for each key. */
  function Grouped(pick: Pick, rows: seq<Row>): seq<Row> {
    if |rows| == 0 then []
    else
      var groups, last := Grouped(pick, rows[..|rows| - 1]), rows[|rows| - 1];
      var k := GroupAt(groups, KeyOf(last));
      if k < 0 then groups + [last]
      else if Preferred(pick, last, groups[k]) then groups[k := last]
      else groups
  }

  predicate Newer(a: Row, b: Row) {
    a.createdAt > b.createdAt || (a.createdAt == b.createdAt && a.id >= b.id)
  }

  function InsertNewest(rows: seq<Row>, r: Row): seq<Row> {
    if |rows| == 0 || Newer(rows[|rows| - 1], r) then rows + [r]
    else InsertNewest(rows[..|rows| - 1], r) + [rows[|rows| - 1]]
  }

  /** `ORDER BY created_at DESC, id DESC` */
  function NewestFirst(rows: seq<Row>): seq<Row> {
    if |rows| == 0 then [] else InsertNewest(NewestFirst(rows[..|rows| - 1]), rows[|rows| - 1])
  }

  function GetMerged(pick: Pick, log: seq<Row>, agents: set<string>, limit: nat, before: Option<int>): Page {
    var rows := NewestFirst(Grouped(pick, Eligible(log, agents, before)));
    if |rows| > limit then Page(rows[..limit], true) else Page(rows, false)
  }

  // ── what a page must list ──

  ghost predicate IdsGrow(log: seq<Row>) {
    forall i, j :: 0 <= i < j < |log| ==> log[i].id < log[j].id
  }

  /** The smallest-id row of its message among the wanted agents' rows. */
  ghost predicate IsLogical(log: seq<Row>, agents: set<string>, r: Row) {
    && r in log && (agents == {} || r.agent in agents)
    && forall s :: s in log && (agents == {} || s.agent in agents) && SameMessage(r, s) ==> r.id <= s.id
  }

  /** The two rows are of one message: they share a queue id, or are one row that has none. */
  ghost predicate SameMessage(r: Row, s: Row) {
    s.queueId == r.queueId && (r.queueId.None? ==> s.id == r.id)
  }

  /** The row that stands for its group. */
  ghost predicate IsRep(pick: Pick, rows: seq<Row>, r: Row) {
    r in rows && forall s :: s in rows && KeyOf(s) == KeyOf(r) ==> if pick.MinId? then r.id <= s.id else r.id >= s.id
  }

  ghost predicate Descending(rows: seq<Row>) {
    forall i, j :: 0 <= i < j < |rows| ==> rows[i].id > rows[j].id
  }

  // ── the query ──

  lemma {:induction false} EligibleGrows(log: seq<Row>, agents: set<string>, before: Option<int>)
    requires IdsGrow(log)
    ensures IdsGrow(Eligible(log, agents, before))
  {
    if |log| > 0 {
      var rest, last := log[..|log| - 1], log[|log| - 1];
      EligibleGrows(rest, agents, before);
      var e := Eligible(rest, agents, before);
      forall i | 0 <= i < |e| ensures e[i].id < last.id {
        assert e[i] in rest;
      }
    }
  }

  ghost predicate NoTwoAlike(rows: seq<Row>) {
    forall i, j :: 0 <= i < j < |rows| ==> rows[i].id != rows[j].id
  }

  ghost predicate NoTwoKeys(rows: seq<Row>) {
    forall i, j :: 0 <= i < j < |rows| ==> KeyOf(rows[i]) != KeyOf(rows[j])
  }

  lemma {:induction false} GroupedIsReps(pick: Pick, rows: seq<Row>)
    requires IdsGrow(rows)
    ensures NoTwoKeys(Grouped(pick, rows)) && NoTwoAlike(Grouped(pick, rows))
    ensures forall r :: r in Grouped(pick, rows) <==> IsRep(pick, rows, r)
  {
    hide IsRep, IdsGrow, NoTwoAlike, NoTwoKeys;
    if |rows| > 0 {
      var rest, last := rows[..|rows| - 1], rows[|rows| - 1];
      assert rows == rest + [last];
      OlderRows(rest, last);
      GroupedIsReps(pick, rest);
      var groups := Grouped(pick, rest);
      var k := GroupAt(groups, KeyOf(last));
      forall g | g in groups ensures g in rest {
        RepIsInRows(pick, rest, g);
      }
      if k >= 0 {
        assert groups[k] in groups;
        RepMoves(pick, rest, last, groups[k]);
        ReplacesKey(groups, k, last);
        forall r ensures r in groups[k := last] <==> r == last || (r in groups && KeyOf(r) != KeyOf(last)) {
          ReplacesMember(groups, k, last, r);
        }
      } else {
        forall s | s in rest ensures KeyOf(s) != KeyOf(last) {
          KeyHasRep(pick, rest, s);
        }
        RepGrows(pick, rest, last);
        AppendsKey(groups, last);
      }
    } else {
      NothingGrouped(pick);
    }
  }

  lemma NothingGrouped(pick: Pick)
    ensures NoTwoKeys([]) && NoTwoAlike([]) && forall r :: !IsRep(pick, [], r)
  {
  }

  lemma OlderRows(rest: seq<Row>, last: Row)
    requires IdsGrow(rest + [last])
    ensures IdsGrow(rest) && forall s :: s in rest ==> s.id < last.id
  {
    var rows := rest + [last];
    assert forall i :: 0 <= i < |rest| ==> rows[i] == rest[i];
    assert rows[|rest|] == last;
  }

  lemma AppendsKey(groups: seq<Row>, last: Row)
    requires NoTwoKeys(groups) && NoTwoAlike(groups)
    requires forall g :: g in groups ==> KeyOf(g) != KeyOf(last) && g.id < last.id
    ensures NoTwoKeys(groups + [last]) && NoTwoAlike(groups + [last])
  {
  }

  lemma ReplacesKey(groups: seq<Row>, k: nat, last: Row)
    requires NoTwoKeys(groups) && NoTwoAlike(groups) && k < |groups| && KeyOf(groups[k]) == KeyOf(last)
    requires forall g :: g in groups ==> g.id < last.id
    ensures NoTwoKeys(groups[k := last]) && NoTwoAlike(groups[k := last])
  {
  }

  lemma RepIsInRows(pick: Pick, rows: seq<Row>, r: Row)
    requires IsRep(pick, rows, r)
    ensures r in rows
  {
  }

  /** The last row starts a group of its own. */
  lemma RepGrows(pick: Pick, rest: seq<Row>, last: Row)
    requires forall s :: s in rest ==> s.id < last.id && KeyOf(s) != KeyOf(last)
    ensures forall r :: IsRep(pick, rest + [last], r) <==> IsRep(pick, rest, r) || r == last
  {
    var rows := rest + [last];
    assert forall s :: s in rows <==> s in rest || s == last;
  }

  /** The last row joins a group: the smallest id goes on standing for it, the largest no longer does. */
  lemma RepMoves(pick: Pick, rest: seq<Row>, last: Row, g: Row)
    requires forall s :: s in rest ==> s.id < last.id
    requires IsRep(pick, rest, g) && KeyOf(g) == KeyOf(last)
    ensures forall r :: IsRep(pick, rest + [last], r) <==>
      if pick.MinId? then IsRep(pick, rest, r) else r == last || (IsRep(pick, rest, r) && KeyOf(r) != KeyOf(last))
  {
    var rows := rest + [last];
    assert forall s :: s in rows <==> s in rest || s == last;
    assert last in rows;
  }

  lemma ReplacesMember(groups: seq<Row>, k: nat, last: Row, r: Row)
    requires NoTwoKeys(groups) && k < |groups| && KeyOf(groups[k]) == KeyOf(last)
    ensures r in groups[k := last] <==> r == last || (r in groups && KeyOf(r) != KeyOf(last))
  {
    var now := groups[k := last];
    assert now[k] == last;
    if r in groups && KeyOf(r) != KeyOf(last) {
      var i :| 0 <= i < |groups| && groups[i] == r;
      assert now[i] == r;
    }
    if r in now && r != last {
      var i :| 0 <= i < |now| && now[i] == r;
      assert groups[i] == r;
    }
  }

  lemma {:induction false} KeyHasRep(pick: Pick, rows: seq<Row>, r: Row)
    requires r in rows
    ensures exists f :: IsRep(pick, rows, f) && KeyOf(f) == KeyOf(r)
    decreases |set s | s in rows && (if pick.MinId? then s.id < r.id else s.id > r.id)|
  {
    if s :| s in rows && KeyOf(s) == KeyOf(r) && (if pick.MinId? then s.id < r.id else s.id > r.id) {
      var nearer := set x | x in rows && (if pick.MinId? then x.id < s.id else x.id > s.id);
      var near := set x | x in rows && (if pick.MinId? then x.id < r.id else x.id > r.id);
      assert nearer < near by { assert s in near && s !in nearer; }
      SmallerSet(nearer, near);
      KeyHasRep(pick, rows, s);
    } else {
      assert IsRep(pick, rows, r);
    }
  }

  lemma SmallerSet<T>(a: set<T>, b: set<T>)
    requires a < b
    ensures |a| < |b|
  {
    assert b == a + (b - a);
    assert |b| == |a| + |b - a|;
  }

  lemma {:induction false} InsertNewestFacts(rows: seq<Row>, r: Row)
    ensures forall x :: x in InsertNewest(rows, r) <==> x in rows || x == r
    ensures |InsertNewest(rows, r)| == |rows| + 1
  {
    if |rows| == 0 || Newer(rows[|rows| - 1], r) {
    } else {
      InsertNewestFacts(rows[..|rows| - 1], r);
      assert rows == rows[..|rows| - 1] + [rows[|rows| - 1]];
    }
  }

  ghost predicate SortedNewest(rows: seq<Row>) {
    forall i, j :: 0 <= i < j < |rows| ==> Newer(rows[i], rows[j])
  }

  lemma {:induction false} InsertNewestSorts(rows: seq<Row>, r: Row)
    requires SortedNewest(rows)
    ensures SortedNewest(InsertNewest(rows, r))
  {
    if |rows| == 0 || Newer(rows[|rows| - 1], r) {
    } else {
      var rest, last := rows[..|rows| - 1], rows[|rows| - 1];
      InsertNewestSorts(rest, r);
      InsertNewestFacts(rest, r);
      var s := InsertNewest(rest, r);
      forall i | 0 <= i < |s| ensures Newer(s[i], last) {
        assert s[i] in s;
      }
    }
  }

  lemma {:induction false} InsertNewestDistinct(rows: seq<Row>, r: Row)
    requires NoTwoAlike(rows) && forall x :: x in rows ==> x.id != r.id
    ensures NoTwoAlike(InsertNewest(rows, r))
  {
    if |rows| == 0 || Newer(rows[|rows| - 1], r) {
    } else {
      var rest, last := rows[..|rows| - 1], rows[|rows| - 1];
      InsertNewestDistinct(rest, r);
      InsertNewestFacts(rest, r);
      var s := InsertNewest(rest, r);
      forall i | 0 <= i < |s| ensures s[i].id != last.id {
        assert s[i] in s;
      }
    }
  }

  lemma {:induction false} NewestFirstSorts(rows: seq<Row>)
    requires NoTwoAlike(rows)
    ensures SortedNewest(NewestFirst(rows)) && NoTwoAlike(NewestFirst(rows))
    ensures forall x :: x in NewestFirst(rows) <==> x in rows
  {
    if |rows| > 0 {
      var rest, last := rows[..|rows| - 1], rows[|rows| - 1];
      assert rows == rest + [last];
      NewestFirstSorts(rest);
      forall x | x in NewestFirst(rest) ensures x.id != last.id {
        assert x in rest;
      }
      InsertNewestSorts(NewestFirst(rest), last);
      InsertNewestDistinct(NewestFirst(rest), last);
      InsertNewestFacts(NewestFirst(rest), last);
    }
  }

  /** A row of its group among the wanted rows below the cursor. */
  ghost predicate Stands(pick: Pick, log: seq<Row>, agents: set<string>, before: Option<int>, r: Row) {
    IsRep(pick, Eligible(log, agents, before), r)
  }

  lemma StandsIsLogical(log: seq<Row>, agents: set<string>, before: Option<int>, r: Row)
    ensures Stands(MinId, log, agents, before, r) <==> IsLogical(log, agents, r) && Below(before, r.id)
  {
    var e := Eligible(log, agents, before);
    if IsRep(MinId, e, r) {
      forall s | s in log && Wanted(agents, s) && KeyOf(s) == KeyOf(r) ensures r.id <= s.id {
        assert Below(before, s.id) ==> s in e;
      }
    }
  }

  lemma StandsAmongWanted(pick: Pick, log: seq<Row>, agents: set<string>, before: Option<int>, r: Row)
    requires Stands(pick, log, agents, before, r)
    ensures r in log && Wanted(agents, r) && Below(before, r.id)
  {
  }

  /** The whole result of the query: the rows that stand for a group below the cursor, newest first. */
  lemma QueryLists(pick: Pick, log: seq<Row>, agents: set<string>, before: Option<int>)
    requires IdsGrow(log)
    ensures var rows := NewestFirst(Grouped(pick, Eligible(log, agents, before)));
      && SortedNewest(rows) && NoTwoAlike(rows)
      && forall r :: r in rows <==> Stands(pick, log, agents, before, r)
  {
    var e := Eligible(log, agents, before);
    EligibleGrows(log, agents, before);
    hide IsRep, IdsGrow, NoTwoKeys, SortedNewest, NoTwoAlike;
    GroupedIsReps(pick, e);
    NewestFirstSorts(Grouped(pick, e));
  }

  /** What a page holds, whatever the clock did: the newest rows, and whether any are left. */
  ghost predicate PageHolds(pick: Pick, log: seq<Row>, agents: set<string>, limit: nat, before: Option<int>, p: Page) {
    && SortedNewest(p.messages) && NoTwoAlike(p.messages)
    && (forall r :: r in p.messages ==> Stands(pick, log, agents, before, r))
    && (p.hasMore ==> |p.messages| == limit && exists r :: IsLeft(pick, log, agents, before, p, r))
    && (forall r :: IsLeft(pick, log, agents, before, p, r) ==> p.hasMore && forall m :: m in p.messages ==> Newer(m, r) && m.id != r.id)
  }

  ghost predicate IsLeft(pick: Pick, log: seq<Row>, agents: set<string>, before: Option<int>, p: Page, r: Row) {
    Stands(pick, log, agents, before, r) && r !in p.messages
  }

  lemma InPrefix(rows: seq<Row>, n: nat, i: nat)
    requires n <= |rows| && i < |rows|
    ensures i < n ==> rows[i] in rows[..n]
  {
    if i < n {
      assert rows[..n][i] == rows[i];
    }
  }

  lemma CutNewest(rows: seq<Row>, n: nat)
    requires SortedNewest(rows) && NoTwoAlike(rows) && n < |rows|
    ensures SortedNewest(rows[..n]) && NoTwoAlike(rows[..n]) && rows[n] in rows && rows[n] !in rows[..n]
    ensures forall m :: m in rows[..n] ==> m in rows
    ensures forall r, m :: r in rows && r !in rows[..n] && m in rows[..n] ==> Newer(m, r) && m.id != r.id
  {
    var p := rows[..n];
    forall r, m | r in rows && r !in p && m in p ensures Newer(m, r) && m.id != r.id {
      var i :| 0 <= i < |rows| && rows[i] == r;
      var j :| 0 <= j < |p| && p[j] == m;
      assert rows[j] == m;
      InPrefix(rows, n, i);
    }
  }

  lemma PageIsNewest(pick: Pick, log: seq<Row>, agents: set<string>, limit: nat, before: Option<int>)
    requires IdsGrow(log)
    ensures PageHolds(pick, log, agents, limit, before, GetMerged(pick, log, agents, limit, before))
  {
    hide Stands, Grouped, NewestFirst, Eligible, SortedNewest, NoTwoAlike;
    QueryLists(pick, log, agents, before);
    var rows := NewestFirst(Grouped(pick, Eligible(log, agents, before)));
    if |rows| > limit {
      CutNewest(rows, limit);
      assert IsLeft(pick, log, agents, before, Page(rows[..limit], true), rows[limit]);
    }
  }

  /** Creation time does not fall with id among these rows. */
  ghost predicate Steady(rows: iset<Row>) {
    forall r, s :: r in rows && s in rows && r.id < s.id ==> r.createdAt <= s.createdAt
  }

  ghost function LogicalBelow(log: seq<Row>, agents: set<string>, before: Option<int>): iset<Row> {
    iset r | IsLogical(log, agents, r) && Below(before, r.id)
  }

  ghost function WantedBelow(log: seq<Row>, agents: set<string>, before: Option<int>): iset<Row> {
    iset r | r in log && Wanted(agents, r) && Below(before, r.id)
  }

  ghost function Standing(pick: Pick, log: seq<Row>, agents: set<string>, before: Option<int>): iset<Row> {
    iset r | Stands(pick, log, agents, before, r)
  }

  /** A page of a steady feed: descending, and what is left lies below it. */
  ghost predicate PageGood(pick: Pick, log: seq<Row>, agents: set<string>, limit: nat, before: Option<int>, p: Page) {
    && Descending(p.messages)
    && (forall r :: r in p.messages ==> Stands(pick, log, agents, before, r))
    && (p.hasMore ==> |p.messages| == limit && exists r :: IsLeft(pick, log, agents, before, p, r))
    && (forall r :: IsLeft(pick, log, agents, before, p, r) ==> p.hasMore && forall m :: m in p.messages ==> r.id < m.id)
  }

  lemma PageIsGood(pick: Pick, log: seq<Row>, agents: set<string>, limit: nat, before: Option<int>)
    requires IdsGrow(log) && Steady(Standing(pick, log, agents, before))
    ensures PageGood(pick, log, agents, limit, before, GetMerged(pick, log, agents, limit, before))
  {
    hide Stands, GetMerged;
    PageIsNewest(pick, log, agents, limit, before);
    var p := GetMerged(pick, log, agents, limit, before);
    var rows := Standing(pick, log, agents, before);
    forall i, j | 0 <= i < j < |p.messages| ensures p.messages[i].id > p.messages[j].id {
      assert p.messages[i] in rows && p.messages[j] in rows;
      assert Newer(p.messages[i], p.messages[j]);
    }
    forall r, m | IsLeft(pick, log, agents, before, p, r) && m in p.messages ensures r.id < m.id {
      assert r in rows && m in rows;
    }
  }

  // ── walking the pages while the log grows ──

  /** Page k is fetched from `logs[k]`; rows are only appended, under new ids. */
  ghost predicate Growing(logs: seq<seq<Row>>) {
    && |logs| > 0
    && (forall i :: 0 <= i < |logs| ==> IdsGrow(logs[i]))
    && (forall i :: 0 <= i < |logs| - 1 ==> logs[i] <= logs[i + 1])
  }

  /** The messages listed by following the last listed id. */
  function Walk(pick: Pick, logs: seq<seq<Row>>, agents: set<string>, limit: nat, before: Option<int>): seq<Row> {
    if |logs| == 0 then []
    else
      var p := GetMerged(pick, logs[0], agents, limit, before);
      if p.hasMore && |p.messages| > 0 then
        p.messages + Walk(pick, logs[1..], agents, limit, Some(p.messages[|p.messages| - 1].id))
      else p.messages
  }

  /** Some page of the walk says that there is no more. */
  predicate WalkDone(pick: Pick, logs: seq<seq<Row>>, agents: set<string>, limit: nat, before: Option<int>) {
    |logs| > 0 &&
    var p := GetMerged(pick, logs[0], agents, limit, before);
    !p.hasMore ||
    (|p.messages| > 0 && WalkDone(pick, logs[1..], agents, limit, Some(p.messages[|p.messages| - 1].id)))
  }

  /** The page boundaries: the cursors that the walk follows. */
  function Cursors(pick: Pick, logs: seq<seq<Row>>, agents: set<string>, limit: nat, before: Option<int>): seq<int> {
    if |logs| == 0 then []
    else
      var p := GetMerged(pick, logs[0], agents, limit, before);
      if p.hasMore && |p.messages| > 0 then
        var cursor := p.messages[|p.messages| - 1].id;
        [cursor] + Cursors(pick, logs[1..], agents, limit, Some(cursor))
      else []
  }

  /** The rows of the later log below an old row are the old ones. */
  ghost predicate Extends(log: seq<Row>, later: seq<Row>, m: Row) {
    && (forall s :: s in later && s.id < m.id ==> s in log)
    && (forall s :: s in log ==> s in later)
  }

  lemma OldRowsStay(log: seq<Row>, later: seq<Row>, cursor: Row)
    requires IdsGrow(later) && log <= later && cursor in log
    ensures Extends(log, later, cursor)
  {
    var k :| 0 <= k < |log| && log[k] == cursor;
    assert later[k] == cursor;
    forall s | s in later && s.id < cursor.id ensures s in log {
      var i :| 0 <= i < |later| && later[i] == s;
      assert i < k;
      assert log[i] == s;
    }
    forall s | s in log ensures s in later {
      var i :| 0 <= i < |log| && log[i] == s;
      assert later[i] == s;
    }
  }

  lemma LogicalStays(log: seq<Row>, later: seq<Row>, agents: set<string>, r: Row)
    requires IdsGrow(later) && log <= later && r in log
    ensures IsLogical(log, agents, r) <==> IsLogical(later, agents, r)
  {
    OldRowsStay(log, later, r);
  }

  /** The page that a walk starts with, and what the rest of it starts from. */
  lemma NextPage(pick: Pick, logs: seq<seq<Row>>, agents: set<string>, limit: nat, before: Option<int>) returns (p: Page, m: Row)
    requires Growing(logs)
    ensures p == GetMerged(pick, logs[0], agents, limit, before)
    ensures PageHolds(pick, logs[0], agents, limit, before, p)
    ensures |p.messages| > 0 ==>
      m == p.messages[|p.messages| - 1] && m in p.messages && m in logs[0] && Wanted(agents, m) && Below(before, m.id)
    ensures |p.messages| > 0 && |logs| > 1 ==>
      Growing(logs[1..]) && logs[0] <= logs[1] && Extends(logs[0], logs[1], m)
  {
    hide IdsGrow, Stands, GetMerged, IsLeft, SortedNewest, Extends;
    p := GetMerged(pick, logs[0], agents, limit, before);
    PageIsNewest(pick, logs[0], agents, limit, before);
    if |p.messages| > 0 {
      m := p.messages[|p.messages| - 1];
      assert m in p.messages;
      StandsAmongWanted(pick, logs[0], agents, before, m);
      if |logs| > 1 {
        OldRowsStay(logs[0], logs[1], m);
      }
    } else {
      m :| true;
    }
  }

  lemma {:induction false} WalkIsBelow(pick: Pick, logs: seq<seq<Row>>, agents: set<string>, limit: nat, before: Option<int>, r: Row)
    requires Growing(logs) && r in Walk(pick, logs, agents, limit, before)
    ensures r in logs[0] && Wanted(agents, r) && Below(before, r.id)
    decreases |logs|
  {
    hide GetMerged, IdsGrow, Stands, IsLeft;
    var p, m := NextPage(pick, logs, agents, limit, before);
    if r in p.messages {
      StandsAmongWanted(pick, logs[0], agents, before, r);
    } else {
      WalkIsBelow(pick, logs[1..], agents, limit, Some(m.id), r);
    }
  }

  lemma DescendingJoins(a: seq<Row>, b: seq<Row>)
    requires Descending(a) && Descending(b) && |a| > 0
    requires forall r :: r in b ==> r.id < a[|a| - 1].id
    ensures Descending(a + b)
  {
    forall i, j | 0 <= i < |a| && 0 <= j < |b| ensures a[i].id > b[j].id {
      assert b[j] in b;
    }
  }

  /** Each logical message below the cursor exactly once, descending. */
  ghost predicate Lists(log: seq<Row>, agents: set<string>, before: Option<int>, rows: seq<Row>) {
    Descending(rows) && forall r :: r in rows <==> IsLogical(log, agents, r) && Below(before, r.id)
  }

  lemma SteadyBelow(log: seq<Row>, later: seq<Row>, agents: set<string>, before: Option<int>, cursor: int)
    requires Below(before, cursor) && forall r :: IsLogical(later, agents, r) && r.id < cursor ==> IsLogical(log, agents, r)
    requires Steady(LogicalBelow(log, agents, before))
    ensures Steady(LogicalBelow(later, agents, Some(cursor)))
  {
    assert LogicalBelow(later, agents, Some(cursor)) <= LogicalBelow(log, agents, before);
  }

  /**
   * A finished walk lists each logical message below its first cursor exactly once, descending,
   * whatever rows were appended between its pages.
   */
  lemma {:induction false} WalkListsEverything(logs: seq<seq<Row>>, agents: set<string>, limit: nat, before: Option<int>)
    requires Growing(logs) && WalkDone(MinId, logs, agents, limit, before)
    requires Steady(LogicalBelow(logs[0], agents, before))
    ensures Lists(logs[0], agents, before, Walk(MinId, logs, agents, limit, before))
    decreases |logs|
  {
    hide GetMerged, IsLogical, Descending, IdsGrow, Stands;
    var p, m := NextPage(MinId, logs, agents, limit, before);
    forall r ensures Stands(MinId, logs[0], agents, before, r) <==> IsLogical(logs[0], agents, r) && Below(before, r.id) {
      StandsIsLogical(logs[0], agents, before, r);
    }
    assert Standing(MinId, logs[0], agents, before) == LogicalBelow(logs[0], agents, before);
    PageIsGood(MinId, logs[0], agents, limit, before);
    if p.hasMore {
      forall r: Row | r.id < m.id ensures IsLogical(logs[0], agents, r) <==> IsLogical(logs[1], agents, r) {
        LogicalStaysBelow(logs[0], logs[1], agents, m, r);
      }
      SteadyBelow(logs[0], logs[1], agents, before, m.id);
      WalkListsEverything(logs[1..], agents, limit, Some(m.id));
      var rest := Walk(MinId, logs[1..], agents, limit, Some(m.id));
      DescendingJoins(p.messages, rest);
      forall r ensures r in p.messages + rest <==> IsLogical(logs[0], agents, r) && Below(before, r.id) {
        if IsLogical(logs[0], agents, r) && Below(before, r.id) && r !in p.messages {
          assert IsLeft(MinId, logs[0], agents, before, p, r);
        }
      }
    }
  }

  lemma LogicalStaysBelow(log: seq<Row>, later: seq<Row>, agents: set<string>, m: Row, r: Row)
    requires IdsGrow(later) && log <= later && m in log && r.id < m.id
    ensures IsLogical(log, agents, r) <==> IsLogical(later, agents, r)
  {
    OldRowsStay(log, later, m);
    if r in log {
      LogicalStays(log, later, agents, r);
    }
  }

  /** A walk of pages of at least one message ends within one page more than the rows below its cursor. */
  lemma {:induction false} WalkEnds(pick: Pick, logs: seq<seq<Row>>, agents: set<string>, limit: nat, before: Option<int>, k: nat)
    requires Growing(logs) && limit >= 1 && |logs| > k
    requires k <= |logs[0]| && forall i :: k <= i < |logs[0]| ==> !Below(before, logs[0][i].id)
    ensures WalkDone(pick, logs, agents, limit, before)
    decreases |logs|
  {
    hide GetMerged, Stands, SortedNewest, IsLeft, NoTwoAlike, Extends;
    var p, m := NextPage(pick, logs, agents, limit, before);
    if p.hasMore {
      var i :| 0 <= i < |logs[0]| && logs[0][i] == m;
      assert i < k;
      assert logs[1][i] == m;
      WalkEnds(pick, logs[1..], agents, limit, Some(m.id), i);
    }
  }

  // ── exactly when the walk lists everything once ──

  /** Of two logical messages that the clock puts in the wrong order, pages of one never list the later. */
  lemma {:induction false} InvertedIsSkipped(logs: seq<seq<Row>>, agents: set<string>, before: Option<int>, r: Row, s: Row)
    requires Growing(logs) && IsLogical(logs[0], agents, r) && IsLogical(logs[0], agents, s)
    requires r.id < s.id && r.createdAt > s.createdAt
    ensures s !in Walk(MinId, logs, agents, 1, before)
    decreases |logs|
  {
    hide IsLogical, IdsGrow, Stands, Grouped, NewestFirst, Eligible;
    if s in Walk(MinId, logs, agents, 1, before) {
      WalkIsBelow(MinId, logs, agents, 1, before, s);
      var p, m := NextPage(MinId, logs, agents, 1, before);
      StandsIsLogical(logs[0], agents, before, r);
      assert s !in p.messages by {
        OneAtMost(logs[0], agents, before, p, r, s);
      }
      LogicalIsIn(logs[0], agents, r);
      LogicalIsIn(logs[0], agents, s);
      LogicalStays(logs[0], logs[1], agents, r);
      LogicalStays(logs[0], logs[1], agents, s);
      InvertedIsSkipped(logs[1..], agents, Some(m.id), r, s);
      assert false;
    }
  }

  lemma LogicalIsIn(log: seq<Row>, agents: set<string>, r: Row)
    requires IsLogical(log, agents, r)
    ensures r in log
  {
  }

  lemma OneAtMost(log: seq<Row>, agents: set<string>, before: Option<int>, p: Page, r: Row, s: Row)
    requires PageHolds(MinId, log, agents, 1, before, p) && p == GetMerged(MinId, log, agents, 1, before)
    requires Stands(MinId, log, agents, before, r) && r.id != s.id && !Newer(s, r)
    ensures s !in p.messages
  {
    hide Stands, Grouped, NewestFirst, Eligible, SortedNewest;
    assert |p.messages| <= 1;
    if r in p.messages {
      assert p.messages[0] == r;
    } else {
      assert IsLeft(MinId, log, agents, before, p, r);
    }
  }

  /**
   * With any number of messages to the page, every logical message is listed exactly once, descending,
   * if and only if creation time never falls with id among the logical messages below the cursor.
   */
  lemma WalkListsOnceIff(logs: seq<seq<Row>>, agents: set<string>, before: Option<int>)
    requires Growing(logs) && |logs| > |logs[0]|
    ensures (forall limit :: limit >= 1 ==> Lists(logs[0], agents, before, Walk(MinId, logs, agents, limit, before)))
       <==> Steady(LogicalBelow(logs[0], agents, before))
  {
    hide IsLogical, IdsGrow, Descending, Walk;
    if Steady(LogicalBelow(logs[0], agents, before)) {
      forall limit | limit >= 1 ensures Lists(logs[0], agents, before, Walk(MinId, logs, agents, limit, before)) {
        WalkEnds(MinId, logs, agents, limit, before, |logs[0]|);
        WalkListsEverything(logs, agents, limit, before);
      }
    } else {
      var rows := LogicalBelow(logs[0], agents, before);
      var r, s :| r in rows && s in rows && r.id < s.id && r.createdAt > s.createdAt;
      InvertedIsSkipped(logs, agents, before, r, s);
      assert !Lists(logs[0], agents, before, Walk(MinId, logs, agents, 1, before));
    }
  }

  // ── exactly when the largest id of each group repeats a message ──

  ghost predicate Repeats(rows: seq<Row>) {
    exists i, j :: 0 <= i < j < |rows| && KeyOf(rows[i]) == KeyOf(rows[j])
  }

  /** Two wanted rows of one message on either side of a page boundary. */
  ghost predicate Splits(log: seq<Row>, agents: set<string>, before: Option<int>, c: int, a: Row, b: Row) {
    a in WantedBelow(log, agents, before) && b in WantedBelow(log, agents, before) && KeyOf(a) == KeyOf(b) && a.id < c <= b.id
  }

  lemma LargestPageIsGood(logs: seq<seq<Row>>, agents: set<string>, limit: nat, before: Option<int>)
    requires Growing(logs) && Steady(WantedBelow(logs[0], agents, before))
    ensures PageGood(MaxId, logs[0], agents, limit, before, GetMerged(MaxId, logs[0], agents, limit, before))
  {
    hide Stands, PageGood, GetMerged, IdsGrow;
    forall r | r in Standing(MaxId, logs[0], agents, before) ensures r in WantedBelow(logs[0], agents, before) {
      StandsAmongWanted(MaxId, logs[0], agents, before, r);
    }
    PageIsGood(MaxId, logs[0], agents, limit, before);
  }

  lemma WantedNarrows(log: seq<Row>, later: seq<Row>, agents: set<string>, before: Option<int>, m: Row)
    requires Below(before, m.id) && Steady(WantedBelow(log, agents, before))
    requires Extends(log, later, m)
    ensures Steady(WantedBelow(later, agents, Some(m.id)))
    ensures WantedBelow(later, agents, Some(m.id)) <= WantedBelow(log, agents, before)
  {
    assert WantedBelow(later, agents, Some(m.id)) <= WantedBelow(log, agents, before);
  }

  lemma LargestStands(log: seq<Row>, agents: set<string>, before: Option<int>, a: Row) returns (f: Row)
    requires a in WantedBelow(log, agents, before)
    ensures Stands(MaxId, log, agents, before, f) && KeyOf(f) == KeyOf(a) && f.id >= a.id
  {
    KeyHasRep(MaxId, Eligible(log, agents, before), a);
    f :| IsRep(MaxId, Eligible(log, agents, before), f) && KeyOf(f) == KeyOf(a);
  }

  lemma SameStands(log: seq<Row>, agents: set<string>, before: Option<int>, f: Row, g: Row)
    requires Stands(MaxId, log, agents, before, f) && Stands(MaxId, log, agents, before, g) && KeyOf(f) == KeyOf(g)
    ensures f.id == g.id
  {
  }

  /** A finished walk lists every message of which a wanted row lies below the cursor. */
  lemma {:induction false} WalkListsEveryKey(logs: seq<seq<Row>>, agents: set<string>, limit: nat, before: Option<int>, a: Row)
    returns (f: Row)
    requires Growing(logs) && WalkDone(MaxId, logs, agents, limit, before)
    requires Steady(WantedBelow(logs[0], agents, before)) && a in WantedBelow(logs[0], agents, before)
    ensures f in Walk(MaxId, logs, agents, limit, before) && KeyOf(f) == KeyOf(a)
    decreases |logs|
  {
    hide GetMerged, IdsGrow, Stands, Descending;
    var p, m := NextPage(MaxId, logs, agents, limit, before);
    LargestPageIsGood(logs, agents, limit, before);
    f := LargestStands(logs[0], agents, before, a);
    if f !in p.messages {
      assert IsLeft(MaxId, logs[0], agents, before, p, f);
      WantedNarrows(logs[0], logs[1], agents, before, m);
      f := WalkListsEveryKey(logs[1..], agents, limit, Some(m.id), a);
    }
  }

  lemma RepeatsFrom(a: seq<Row>, b: seq<Row>, f: Row, g: Row)
    requires f in a && g in b && KeyOf(f) == KeyOf(g)
    ensures Repeats(a + b)
  {
    var i :| 0 <= i < |a| && a[i] == f;
    var j :| 0 <= j < |b| && b[j] == g;
    assert (a + b)[i] == f && (a + b)[|a| + j] == g;
  }

  lemma RepeatsLater(a: seq<Row>, b: seq<Row>)
    requires Repeats(b)
    ensures Repeats(a + b)
  {
    var i, j :| 0 <= i < j < |b| && KeyOf(b[i]) == KeyOf(b[j]);
    assert (a + b)[|a| + i] == b[i] && (a + b)[|a| + j] == b[j];
  }

  lemma {:induction false} SplitRepeats(logs: seq<seq<Row>>, agents: set<string>, limit: nat, before: Option<int>, c: int, a: Row, b: Row)
    requires Growing(logs) && WalkDone(MaxId, logs, agents, limit, before)
    requires Steady(WantedBelow(logs[0], agents, before))
    requires c in Cursors(MaxId, logs, agents, limit, before) && Splits(logs[0], agents, before, c, a, b)
    ensures Repeats(Walk(MaxId, logs, agents, limit, before))
    decreases |logs|
  {
    hide GetMerged, IdsGrow, Stands, Repeats, Descending, PageHolds, Extends, Steady;
    var p, m := NextPage(MaxId, logs, agents, limit, before);
    LargestPageIsGood(logs, agents, limit, before);
    WantedNarrows(logs[0], logs[1], agents, before, m);
    var rest := Walk(MaxId, logs[1..], agents, limit, Some(m.id));
    if c != m.id {
      CursorIsBelow(MaxId, logs[1..], agents, limit, Some(m.id), c);
    }
    if b.id < m.id {
      SplitRepeats(logs[1..], agents, limit, Some(m.id), c, a, b);
      RepeatsLater(p.messages, rest);
    } else {
      var f := LargestStands(logs[0], agents, before, b);
      assert IsLeft(MaxId, logs[0], agents, before, p, f) <==> f !in p.messages;
      var g := WalkListsEveryKey(logs[1..], agents, limit, Some(m.id), a);
      RepeatsFrom(p.messages, rest, f, g);
    }
  }

  lemma {:induction false} CursorIsBelow(pick: Pick, logs: seq<seq<Row>>, agents: set<string>, limit: nat, before: Option<int>, c: int)
    requires Growing(logs) && c in Cursors(pick, logs, agents, limit, before)
    ensures Below(before, c)
    decreases |logs|
  {
    hide GetMerged, IdsGrow, Stands, PageHolds;
    var p, m := NextPage(pick, logs, agents, limit, before);
    if c != m.id {
      CursorIsBelow(pick, logs[1..], agents, limit, Some(m.id), c);
    }
  }

  lemma PageRepeatsNothing(log: seq<Row>, agents: set<string>, limit: nat, before: Option<int>, p: Page)
    requires PageGood(MaxId, log, agents, limit, before, p)
    ensures !Repeats(p.messages)
  {
    hide Stands, IsLeft;
    forall i, j | 0 <= i < j < |p.messages| ensures KeyOf(p.messages[i]) != KeyOf(p.messages[j]) {
      if KeyOf(p.messages[i]) == KeyOf(p.messages[j]) {
        SameStands(log, agents, before, p.messages[i], p.messages[j]);
      }
    }
  }

  lemma PartOf(a: seq<Row>, b: seq<Row>, i: nat)
    requires i < |a + b|
    ensures (a + b)[i] == if i < |a| then a[i] else b[i - |a|]
  {
  }

  lemma RepeatOfTwo(a: seq<Row>, b: seq<Row>) returns (f: Row, g: Row)
    requires Repeats(a + b) && !Repeats(a) && !Repeats(b)
    ensures f in a && g in b && KeyOf(f) == KeyOf(g)
  {
    var rows := a + b;
    var i, j :| 0 <= i < j < |rows| && KeyOf(rows[i]) == KeyOf(rows[j]);
    f, g := rows[i], rows[j];
    PartOf(a, b, i);
    PartOf(a, b, j);
  }

  lemma {:induction false} RepeatSplits(logs: seq<seq<Row>>, agents: set<string>, limit: nat, before: Option<int>)
    returns (c: int, a: Row, b: Row)
    requires Growing(logs) && Steady(WantedBelow(logs[0], agents, before))
    requires Repeats(Walk(MaxId, logs, agents, limit, before))
    ensures c in Cursors(MaxId, logs, agents, limit, before) && Splits(logs[0], agents, before, c, a, b)
    decreases |logs|
  {
    hide GetMerged, IdsGrow, Stands, PageHolds, Extends, Steady, Repeats;
    var p, m := NextPage(MaxId, logs, agents, limit, before);
    LargestPageIsGood(logs, agents, limit, before);
    PageRepeatsNothing(logs[0], agents, limit, before, p);
    var rest := Walk(MaxId, logs[1..], agents, limit, Some(m.id));
    assert |logs| == 1 ==> p.messages + rest == p.messages;
    WantedNarrows(logs[0], logs[1], agents, before, m);
    if Repeats(rest) {
      c, a, b := RepeatSplits(logs[1..], agents, limit, Some(m.id));
    } else {
      b, a := RepeatOfTwo(p.messages, rest);
      c := m.id;
      StandsAmongWanted(MaxId, logs[0], agents, before, b);
      WalkIsBelow(MaxId, logs[1..], agents, limit, Some(m.id), a);
    }
  }

  /**
   * If a group were listed by its largest id, a finished walk would list a message twice exactly when a
   * page boundary falls between two wanted rows of that message.
   */
  lemma LargestIdRepeatsIff(logs: seq<seq<Row>>, agents: set<string>, limit: nat, before: Option<int>)
    requires Growing(logs) && WalkDone(MaxId, logs, agents, limit, before)
    requires Steady(WantedBelow(logs[0], agents, before))
    ensures Repeats(Walk(MaxId, logs, agents, limit, before)) <==>
            exists c, a, b :: c in Cursors(MaxId, logs, agents, limit, before) && Splits(logs[0], agents, before, c, a, b)
  {
    hide Repeats, Splits, Walk, Cursors, WalkDone, IdsGrow;
    if Repeats(Walk(MaxId, logs, agents, limit, before)) {
      var c, a, b := RepeatSplits(logs, agents, limit, before);
      assert c in Cursors(MaxId, logs, agents, limit, before) && Splits(logs[0], agents, before, c, a, b);
    }
    if c, a, b :| c in Cursors(MaxId, logs, agents, limit, before) && Splits(logs[0], agents, before, c, a, b) {
      SplitRepeats(logs, agents, limit, before, c, a, b);
    }
  }

  // ── why the two conditions matter ──

  /** Three rows, the first and last of one queued message. */
  const EXAMPLE: seq<Row> := [Row(3, "a", Some(1), 3), Row(5, "a", None, 5), Row(7, "b", Some(1), 7)]

  lemma EligibleThree(a: Row, b: Row, c: Row, before: Option<int>, n: nat)
    requires n <= 3
    requires (Below(before, a.id) <==> 0 < n) && (Below(before, b.id) <==> 1 < n) && (Below(before, c.id) <==> 2 < n)
    ensures Eligible([a, b, c], {}, before) == [a, b, c][..n]
  {
    hide Eligible, Below;
    EligibleStep([], a, before);
    EligibleStep([a], b, before);
    EligibleStep([a, b], c, before);
    assert [] + [a] == [a] && [a] + [b] == [a, b] && [a, b] + [c] == [a, b, c];
    if n == 0 {
      assert [a, b, c][..0] == [];
    } else if n == 1 {
      assert [a, b, c][..1] == [a];
    } else if n == 2 {
      assert [a, b, c][..2] == [a, b];
    } else {
      assert [a, b, c][..3] == [a, b, c];
    }
  }

  lemma EligibleStep(rest: seq<Row>, last: Row, before: Option<int>)
    ensures Eligible([], {}, before) == []
    ensures Eligible(rest + [last], {}, before) == Eligible(rest, {}, before) + if Below(before, last.id) then [last] else []
  {
    assert (rest + [last])[..|rest|] == rest;
  }

  lemma GroupTwo(a: Row, b: Row)
    requires KeyOf(a) != KeyOf(b)
    ensures Grouped(MaxId, [a]) == [a] && Grouped(MaxId, [a, b]) == [a, b]
    ensures Grouped(MinId, [a, b]) == [a, b]
  {
    assert [a, b][..1] == [a] && [a][..0] == [];
    assert Grouped(MaxId, []) == [] && Grouped(MinId, []) == [];
    assert Grouped(MaxId, [a]) == [a] && Grouped(MinId, [a]) == [a];
    assert GroupAt([], KeyOf(b)) == -1;
    assert GroupAt([a], KeyOf(b)) == -1;
  }

  lemma GroupStep(rest: seq<Row>, last: Row, k: int)
    requires k == GroupAt(Grouped(MaxId, rest), KeyOf(last)) && k >= 0
    requires Preferred(MaxId, last, Grouped(MaxId, rest)[k])
    ensures Grouped(MaxId, rest + [last]) == Grouped(MaxId, rest)[k := last]
  {
    assert (rest + [last])[..|rest|] == rest;
  }

  lemma GroupThree(a: Row, b: Row, c: Row)
    requires KeyOf(a) == KeyOf(c) != KeyOf(b) && a.id < c.id
    ensures Grouped(MaxId, [a, b] + [c]) == [c, b]
  {
    hide Grouped;
    GroupTwo(a, b);
    assert [a, b][..1] == [a];
    assert GroupAt([a], KeyOf(c)) == 0;
    assert GroupAt([a, b], KeyOf(c)) == 0;
    GroupStep([a, b], c, 0);
    assert [a, b][0 := c] == [c, b];
  }

  lemma GroupExample()
    ensures Grouped(MaxId, EXAMPLE) == [EXAMPLE[2], EXAMPLE[1]]
  {
    hide Grouped;
    GroupThree(EXAMPLE[0], EXAMPLE[1], EXAMPLE[2]);
    assert EXAMPLE == [EXAMPLE[0], EXAMPLE[1]] + [EXAMPLE[2]];
  }

  /** With the largest id of each group instead, a message of two rows is listed twice. */
  lemma LargestIdListsTwice()
    ensures GetMerged(MaxId, EXAMPLE, {}, 1, None) == Page([EXAMPLE[2]], true)
    ensures GetMerged(MaxId, EXAMPLE, {}, 1, Some(7)) == Page([EXAMPLE[1]], true)
    ensures GetMerged(MaxId, EXAMPLE, {}, 1, Some(5)) == Page([EXAMPLE[0]], false)
    ensures KeyOf(EXAMPLE[0]) == KeyOf(EXAMPLE[2])
  {
    hide Eligible, Grouped, NewestFirst;
    var a, b, c := EXAMPLE[0], EXAMPLE[1], EXAMPLE[2];
    EligibleThree(a, b, c, None, 3);
    assert EXAMPLE[..3] == EXAMPLE;
    GroupExample();
    TwoNewest(c, b);
    EligibleThree(a, b, c, Some(7), 2);
    assert EXAMPLE[..2] == [a, b];
    GroupTwo(a, b);
    TwoNewest(a, b);
    EligibleThree(a, b, c, Some(5), 1);
    assert EXAMPLE[..1] == [a];
  }

  lemma TwoNewest(a: Row, b: Row)
    requires a.createdAt != b.createdAt
    ensures NewestFirst([a, b]) == if a.createdAt > b.createdAt then [a, b] else [b, a]
    ensures NewestFirst([a]) == [a]
  {
    assert [a, b][..1] == [a] && [a][..0] == [];
    assert NewestFirst([]) == [];
    assert InsertNewest([], a) == [a] && InsertNewest([], b) == [b];
    assert NewestFirst([a]) == [a];
    assert InsertNewest([a], b) == if a.createdAt > b.createdAt then [a, b] else [b, a];
  }

  /** When the clock steps back between two rows, the newer row is never listed. */
  lemma ClockStepBackSkipsARow()
    ensures
      var log := [Row(1, "a", None, 10), Row(2, "a", None, 5)];
      && GetMerged(MinId, log, {}, 1, None) == Page([log[0]], true)
      && GetMerged(MinId, log, {}, 1, Some(1)) == Page([], false)
      && IsLogical(log, {}, log[1])
  {
    hide Grouped, NewestFirst, Eligible;
    var a, b := Row(1, "a", None, 10), Row(2, "a", None, 5);
    EligibleTwo(a, b);
    GroupTwo(a, b);
    TwoNewest(a, b);
    NothingToList();
  }

  lemma EligibleTwo(a: Row, b: Row)
    requires a.id == 1 && b.id == 2
    ensures Eligible([a, b], {}, None) == [a, b] && Eligible([a, b], {}, Some(1)) == []
  {
    assert [a, b][..1] == [a] && [a][..0] == [];
    assert Eligible([], {}, None) == [] && Eligible([], {}, Some(1)) == [];
    assert Eligible([a], {}, None) == [a] && Eligible([a], {}, Some(1)) == [];
  }

  lemma NothingToList()
    ensures NewestFirst(Grouped(MinId, [])) == []
  {
  }
}
