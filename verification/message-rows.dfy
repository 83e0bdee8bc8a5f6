/** Message rows, the server's log of them, and the sort the dashboard applies. */
module MessageRows {
  import opened Options

  datatype Direction = ToAgent | FromAgent

  /** Server rows have positive ids; a row shown before the server has it has a negative one. */
  datatype Msg = Msg(id: int, agent: string, direction: Direction, text: string, createdAt: int, withdrawn: bool)

  type Threads = map<string, seq<Msg>>

  function Thread(t: Threads, agent: string): seq<Msg> {
    if agent in t then t[agent] else []
  }

  /** The ids of the server rows in a list. */
  function IdSet(t: seq<Msg>): set<int> {
    set m | m in t && m.id > 0 :: m.id
  }

  /** The server's rows of an agent with lo < id <= hi. */
  function IdsIn(log: seq<Msg>, agent: string, lo: int, hi: int): set<int> {
    set m | m in log && m.agent == agent && lo < m.id <= hi :: m.id
  }

  /** `filter(m => m.id > 0)` */
  function Positive(t: seq<Msg>): (p: seq<Msg>)
    ensures forall m :: m in p <==> m in t && m.id > 0
    ensures |p| <= |t|
  {
    if |t| == 0 then []
    else if t[|t| - 1].id > 0 then Positive(t[..|t| - 1]) + [t[|t| - 1]]
    else Positive(t[..|t| - 1])
  }

  /** `slice(-n)` */
  function LastN(t: seq<Msg>, n: nat): seq<Msg> {
    if |t| <= n then t else t[|t| - n..]
  }

  function LastId(log: seq<Msg>): int {
    if |log| == 0 then 0 else log[|log| - 1].id
  }

  /** Ids grow from row to row and creation time never decreases. */
  ghost predicate LogGood(log: seq<Msg>) {
    && (forall i :: 0 <= i < |log| ==> log[i].id > 0)
    && (forall i, j :: 0 <= i < j < |log| ==> log[i].id < log[j].id && log[i].createdAt <= log[j].createdAt)
  }

  // ── Sorting by (createdAt, id) ──

  predicate Before(a: Msg, b: Msg) {
    a.createdAt < b.createdAt || (a.createdAt == b.createdAt && a.id <= b.id)
  }

  ghost predicate Sorted(t: seq<Msg>) {
    forall i, j :: 0 <= i < j < |t| ==> Before(t[i], t[j])
  }

  function Insert(t: seq<Msg>, m: Msg): seq<Msg> {
    if |t| == 0 || Before(t[|t| - 1], m) then
      t + [m]
    else
      Insert(t[..|t| - 1], m) + [t[|t| - 1]]
  }

  function SortRows(t: seq<Msg>): seq<Msg> {
    if |t| == 0 then []
    else Insert(SortRows(t[..|t| - 1]), t[|t| - 1])
  }

  lemma {:induction false} InsertMembers(t: seq<Msg>, m: Msg)
    ensures forall x :: x in Insert(t, m) <==> x in t || x == m
    ensures multiset(Insert(t, m)) == multiset(t) + multiset{m}
  {
    if |t| == 0 || Before(t[|t| - 1], m) {
    } else {
      InsertMembers(t[..|t| - 1], m);
      assert t == t[..|t| - 1] + [t[|t| - 1]];
    }
  }

  lemma {:induction false} InsertSorts(t: seq<Msg>, m: Msg)
    requires Sorted(t)
    ensures Sorted(Insert(t, m))
  {
    if |t| == 0 || Before(t[|t| - 1], m) {
    } else {
      var rest, last := t[..|t| - 1], t[|t| - 1];
      InsertSorts(rest, m);
      InsertMembers(rest, m);
      var r := Insert(rest, m);
      forall i | 0 <= i < |r| ensures Before(r[i], last) {
        assert r[i] in r;
      }
    }
  }

  /** Sorting gives the same rows, in order. */
  lemma {:induction false} SortRowsSorts(t: seq<Msg>)
    ensures Sorted(SortRows(t))
    ensures multiset(SortRows(t)) == multiset(t)
    ensures forall m :: m in SortRows(t) <==> m in t
  {
    if |t| > 0 {
      var rest, last := t[..|t| - 1], t[|t| - 1];
      assert t == rest + [last];
      SortRowsSorts(rest);
      InsertSorts(SortRows(rest), last);
      InsertMembers(SortRows(rest), last);
    }
  }

  // ── Distinct and increasing server ids within one list ──

  ghost predicate Distinct(t: seq<Msg>) {
    forall i, j :: 0 <= i < j < |t| && t[i].id > 0 ==> t[i].id != t[j].id
  }

  ghost predicate Increasing(t: seq<Msg>) {
    forall i, j :: 0 <= i < j < |t| && t[i].id > 0 && t[j].id > 0 ==> t[i].id < t[j].id
  }

  predicate SameStamp(m: Msg, r: Msg) {
    m.id == r.id && m.createdAt == r.createdAt && m.agent == r.agent && m.text == r.text && m.direction == r.direction
  }

  ghost predicate InLog(log: seq<Msg>, m: Msg) {
    exists k :: 0 <= k < |log| && SameStamp(m, log[k])
  }

  /** Every server row shown is the log's row of that id, but for the mark of a withdrawal. */
  ghost predicate Stamped(log: seq<Msg>, t: seq<Msg>) {
    forall m :: m in t && m.id > 0 ==> InLog(log, m)
  }

  lemma {:induction false} InsertDistinct(t: seq<Msg>, m: Msg)
    requires Distinct(t) && m.id !in IdSet(t)
    ensures Distinct(Insert(t, m))
  {
    forall x | x in t && x.id > 0 ensures x.id != m.id {
      assert x.id in IdSet(t);
    }
    if |t| == 0 || Before(t[|t| - 1], m) {
    } else {
      var rest, last := t[..|t| - 1], t[|t| - 1];
      assert IdSet(rest) <= IdSet(t);
      InsertDistinct(rest, m);
      InsertMembers(rest, m);
      var r := Insert(rest, m);
      forall i | 0 <= i < |r| && r[i].id > 0 ensures r[i].id != last.id {
        assert r[i] in r;
      }
    }
  }

  lemma {:induction false} SortRowsDistinct(t: seq<Msg>)
    requires Distinct(t)
    ensures Distinct(SortRows(t))
  {
    if |t| > 0 {
      var rest, last := t[..|t| - 1], t[|t| - 1];
      SortRowsDistinct(rest);
      SortRowsSorts(rest);
      forall x | x in SortRows(rest) && x.id > 0 ensures x.id != last.id {
        assert x in rest;
      }
      InsertDistinct(SortRows(rest), last);
    }
  }

  lemma LogOrder(log: seq<Msg>, a: Msg, b: Msg)
    requires LogGood(log) && InLog(log, a) && InLog(log, b) && a.id < b.id
    ensures a.createdAt <= b.createdAt
  {
    var p :| 0 <= p < |log| && SameStamp(a, log[p]);
    var q :| 0 <= q < |log| && SameStamp(b, log[q]);
    assert !(q < p) && q != p;
  }

  /** Sorting a list whose server rows are stamped and distinct puts their ids in order. */
  lemma SortedIsIncreasing(log: seq<Msg>, t: seq<Msg>)
    requires LogGood(log) && Stamped(log, t) && Distinct(t) && Sorted(t)
    ensures Increasing(t)
  {
    forall i, j | 0 <= i < j < |t| && t[i].id > 0 && t[j].id > 0 ensures t[i].id < t[j].id {
      assert t[i] in t && t[j] in t && Before(t[i], t[j]);
      if t[j].id < t[i].id {
        LogOrder(log, t[j], t[i]);
      }
    }
  }

  lemma PositiveIds(t: seq<Msg>)
    ensures IdSet(Positive(t)) == IdSet(t)
  {
    var p := Positive(t);
    forall k | k in IdSet(t) ensures k in IdSet(p) {
      var m :| m in t && m.id > 0 && m.id == k;
      assert m in p;
    }
  }

  lemma {:induction false} PositiveIncreasing(t: seq<Msg>)
    requires Increasing(t)
    ensures Increasing(Positive(t))
  {
    if |t| > 0 {
      var rest, last := t[..|t| - 1], t[|t| - 1];
      PositiveIncreasing(rest);
      var p := Positive(rest);
      forall i | 0 <= i < |p| && last.id > 0 ensures p[i].id < last.id {
        assert p[i] in p && p[i] in rest;
      }
    }
  }

  lemma {:induction false} PositiveDistinct(t: seq<Msg>)
    requires Distinct(t)
    ensures Distinct(Positive(t))
  {
    if |t| > 0 {
      var rest, last := t[..|t| - 1], t[|t| - 1];
      PositiveDistinct(rest);
      var p := Positive(rest);
      forall i | 0 <= i < |p| ensures p[i].id != last.id {
        assert p[i] in p && p[i] in rest;
      }
    }
  }
}
