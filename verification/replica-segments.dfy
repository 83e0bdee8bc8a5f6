/** One agent's thread as a gap-free, most recent stretch of the server's rows. */
module ReplicaSegments {
  import opened MessageRows
  import opened DashboardSpec

  ghost predicate IsSegment(log: seq<Msg>, agent: string, t: seq<Msg>, lo: int, hi: int) {
    IdSet(t) == IdsIn(log, agent, lo, hi)
  }

  /** No server row of the agent is missing between the oldest row held and `hi`. */
  ghost predicate GapFree(log: seq<Msg>, agent: string, t: seq<Msg>, hi: int) {
    Distinct(t) && Stamped(log, t) && exists lo :: IsSegment(log, agent, t, lo, hi)
  }

  /** The log gained rows at its end, and old rows kept their id, agent and time. */
  ghost predicate Extends(log: seq<Msg>, later: seq<Msg>) {
    && |log| <= |later|
    && (forall k :: 0 <= k < |log| ==> SameStamp(log[k], later[k]))
    && (forall k :: |log| <= k < |later| ==> later[k].id > LastId(log))
  }

  lemma LogRowsUpTo(log: seq<Msg>, m: Msg)
    requires LogGood(log) && m in log
    ensures 0 < m.id <= LastId(log)
  {
    var k :| 0 <= k < |log| && log[k] == m;
    assert k == |log| - 1 || log[k].id < log[|log| - 1].id;
  }

  lemma StampedMoves(log: seq<Msg>, later: seq<Msg>, t: seq<Msg>)
    requires Extends(log, later) && Stamped(log, t)
    ensures Stamped(later, t)
  {
    forall m | m in t && m.id > 0 ensures InLog(later, m) {
      assert InLog(log, m);
      var k :| 0 <= k < |log| && SameStamp(m, log[k]);
      assert SameStamp(m, later[k]);
    }
  }

  lemma IdsMove(log: seq<Msg>, later: seq<Msg>, agent: string, lo: int, hi: int)
    requires LogGood(log) && Extends(log, later) && hi <= LastId(log)
    ensures IdsIn(log, agent, lo, hi) == IdsIn(later, agent, lo, hi)
  {
    forall x | x in IdsIn(log, agent, lo, hi) ensures x in IdsIn(later, agent, lo, hi) {
      var m :| m in log && m.agent == agent && m.id == x;
      var k :| 0 <= k < |log| && log[k] == m;
      assert SameStamp(log[k], later[k]);
      assert later[k] in later;
    }
    forall x | x in IdsIn(later, agent, lo, hi) ensures x in IdsIn(log, agent, lo, hi) {
      var m :| m in later && m.agent == agent && m.id == x;
      var k :| 0 <= k < |later| && later[k] == m;
      assert k < |log|;
      assert SameStamp(log[k], later[k]);
      assert log[k] in log;
    }
  }

  lemma GapFreeMoves(log: seq<Msg>, later: seq<Msg>, agent: string, t: seq<Msg>, hi: int)
    requires LogGood(log) && Extends(log, later) && hi <= LastId(log)
    requires GapFree(log, agent, t, hi)
    ensures GapFree(later, agent, t, hi)
  {
    var lo :| IsSegment(log, agent, t, lo, hi);
    IdsMove(log, later, agent, lo, hi);
    StampedMoves(log, later, t);
    assert IsSegment(later, agent, t, lo, hi);
  }

  lemma EmptyIsGapFree(log: seq<Msg>, agent: string, hi: int)
    ensures GapFree(log, agent, [], hi)
  {
    assert IsSegment(log, agent, [], hi, hi);
  }

  // ── a live row ──

  /** `m` is the first row of the log after `hi`. */
  ghost predicate IsNext(log: seq<Msg>, m: Msg, hi: int) {
    && InLog(log, m)
    && hi < m.id
    && forall r :: r in log && hi < r.id <= m.id ==> r.id == m.id && r.agent == m.agent
  }

  lemma NextIds(log: seq<Msg>, m: Msg, agent: string, lo: int, hi: int)
    requires IsNext(log, m, hi) && lo <= hi
    ensures IdsIn(log, agent, lo, m.id) == IdsIn(log, agent, lo, hi) + (if agent == m.agent then {m.id} else {})
  {
    var k :| 0 <= k < |log| && SameStamp(m, log[k]);
    assert log[k] in log;
  }

  lemma ReceiveIds(t: seq<Msg>, m: Msg)
    requires m.id > 0
    ensures IdSet(Receive(t, m)) == IdSet(t) + {m.id}
    ensures forall x :: x in Receive(t, m) ==> x in t || x == m
  {
    var r := Receive(t, m);
    var k := EchoSpot(t, m, |t| - 1);
    if k >= 0 {
      assert r[k] == m;
      forall x | x in t && x.id > 0 ensures x in r {
        var i :| 0 <= i < |t| && t[i] == x;
        assert r[i] == x;
      }
    } else {
      assert r == t + [m];
    }
  }

  lemma ReceiveDistinct(t: seq<Msg>, m: Msg)
    requires Distinct(t) && m.id > 0 && m.id !in IdSet(t)
    ensures Distinct(Receive(t, m))
  {
    forall x | x in t ensures x.id != m.id {
      assert x.id > 0 ==> x.id in IdSet(t);
    }
  }

  lemma LoBelowHi(log: seq<Msg>, agent: string, t: seq<Msg>, hi: int) returns (lo: int)
    requires GapFree(log, agent, t, hi)
    ensures lo <= hi && IsSegment(log, agent, t, lo, hi)
  {
    lo :| IsSegment(log, agent, t, lo, hi);
    if lo > hi {
      assert IdsIn(log, agent, lo, hi) == IdsIn(log, agent, hi, hi);
      lo := hi;
    }
  }

  /** The next live row of the thread's own agent extends the segment by one row. */
  lemma ReceiveKeepsGapFree(log: seq<Msg>, t: seq<Msg>, m: Msg, hi: int)
    requires GapFree(log, m.agent, t, hi) && IsNext(log, m, hi) && m.id > 0
    ensures GapFree(log, m.agent, Receive(t, m), m.id)
  {
    hide Receive, Distinct;
    var lo := LoBelowHi(log, m.agent, t, hi);
    NextIds(log, m, m.agent, lo, hi);
    ReceiveIds(t, m);
    assert m.id !in IdSet(t);
    ReceiveDistinct(t, m);
    assert IsSegment(log, m.agent, Receive(t, m), lo, m.id);
  }

  /** A live row of another agent leaves the segment complete. */
  lemma OthersKeepGapFree(log: seq<Msg>, agent: string, t: seq<Msg>, m: Msg, hi: int)
    requires GapFree(log, agent, t, hi) && IsNext(log, m, hi) && agent != m.agent
    ensures GapFree(log, agent, t, m.id)
  {
    var lo := LoBelowHi(log, agent, t, hi);
    NextIds(log, m, agent, lo, hi);
    assert IsSegment(log, agent, t, lo, m.id);
  }

  // ── a withdrawn row ──

  lemma OverwriteIds(t: seq<Msg>, m: Msg)
    ensures IdSet(Overwrite(t, m)) == IdSet(t)
    ensures |Overwrite(t, m)| == |t|
    ensures forall i :: 0 <= i < |t| ==> Overwrite(t, m)[i].id == t[i].id
    ensures forall x :: x in Overwrite(t, m) ==> x in t || x == m
  {
    var r := Overwrite(t, m);
    forall k | k in IdSet(t) ensures k in IdSet(r) {
      var x :| x in t && x.id > 0 && x.id == k;
      var i :| 0 <= i < |t| && t[i] == x;
      assert r[i] in r;
    }
    forall k | k in IdSet(r) ensures k in IdSet(t) {
      var x :| x in r && x.id > 0 && x.id == k;
      var i :| 0 <= i < |r| && r[i] == x;
      assert t[i] in t;
    }
  }

  // ── a delta ──

  /** The rows the server sends for a delta: all of the agent's after `since`, up to `hi`. */
  ghost predicate IsDelta(log: seq<Msg>, agent: string, rows: seq<Msg>, since: int, hi: int) {
    Distinct(rows) && Stamped(log, rows) && IsSegment(log, agent, rows, since, hi)
    && forall m :: m in rows ==> m.id > 0
  }

  lemma MergeIds(t: seq<Msg>, rows: seq<Msg>)
    requires forall m :: m in rows ==> m.id > 0
    ensures IdSet(MergeThread(t, rows)) == IdSet(t) + IdSet(rows)
    ensures forall m :: m in MergeThread(t, rows) ==> m in t || m in rows
  {
    var fresh_ := Unheld(IdSet(t), rows);
    SortRowsSorts(t + fresh_);
    var r := MergeThread(t, rows);
    assert forall m :: m in r <==> m in t || m in fresh_;
    forall k | k in IdSet(rows) ensures k in IdSet(r) {
      var m :| m in rows && m.id > 0 && m.id == k;
      if k in IdSet(t) {
        var o :| o in t && o.id > 0 && o.id == k;
        assert o in r;
      } else {
        assert m in fresh_ && m in r;
      }
    }
    forall k | k in IdSet(t) ensures k in IdSet(r) {
      var m :| m in t && m.id > 0 && m.id == k;
      assert m in r;
    }
  }

  lemma {:induction false} UnheldDistinct(have: set<int>, rows: seq<Msg>)
    requires Distinct(rows)
    ensures Distinct(Unheld(have, rows))
  {
    if |rows| > 0 {
      var rest, last := rows[..|rows| - 1], rows[|rows| - 1];
      UnheldDistinct(have, rest);
      var u := Unheld(have, rest);
      forall i | 0 <= i < |u| && u[i].id > 0 ensures u[i].id != last.id {
        assert u[i] in u && u[i] in rest;
      }
    }
  }

  lemma MergeDistinct(t: seq<Msg>, rows: seq<Msg>)
    requires Distinct(t) && Distinct(rows)
    ensures Distinct(MergeThread(t, rows))
  {
    var u := Unheld(IdSet(t), rows);
    UnheldDistinct(IdSet(t), rows);
    forall i, j | 0 <= i < |t| && 0 <= j < |u| && t[i].id > 0 ensures t[i].id != u[j].id {
      assert t[i] in t && u[j] in u;
      assert t[i].id in IdSet(t);
    }
    assert Distinct(t + u);
    SortRowsDistinct(t + u);
  }

  lemma MergeStamped(log: seq<Msg>, t: seq<Msg>, rows: seq<Msg>)
    requires forall m :: m in rows ==> m.id > 0
    requires Stamped(log, t) && Stamped(log, rows)
    ensures Stamped(log, MergeThread(t, rows))
  {
    MergeIds(t, rows);
  }

  /**
   * Merging the rows after `since` into a thread complete up to `known` is complete up to `hi`
   * whenever the watermark lags behind what the thread holds.
   */
  lemma MergeKeepsGapFree(log: seq<Msg>, agent: string, t: seq<Msg>, rows: seq<Msg>, since: int, known: int, hi: int)
    requires GapFree(log, agent, t, known) && IsDelta(log, agent, rows, since, hi)
    requires since <= known <= hi
    ensures GapFree(log, agent, MergeThread(t, rows), hi)
  {
    hide MergeThread, Distinct, Stamped;
    var lo := LoBelowHi(log, agent, t, known);
    MergeIds(t, rows);
    MergeDistinct(t, rows);
    MergeStamped(log, t, rows);
    var low := if lo < since then lo else since;
    assert IdsIn(log, agent, lo, known) + IdsIn(log, agent, since, hi) == IdsIn(log, agent, low, hi);
    assert IsSegment(log, agent, MergeThread(t, rows), low, hi);
  }

  /** A merged thread is in order whatever the order of what it held. */
  lemma MergeIncreases(log: seq<Msg>, t: seq<Msg>, rows: seq<Msg>)
    requires LogGood(log) && Distinct(t) && Distinct(rows) && Stamped(log, t) && Stamped(log, rows)
    requires forall m :: m in rows ==> m.id > 0
    ensures Increasing(MergeThread(t, rows))
  {
    hide Distinct, Stamped, Increasing;
    MergeDistinct(t, rows);
    MergeStamped(log, t, rows);
    SortRowsSorts(t + Unheld(IdSet(t), rows));
    SortedIsIncreasing(log, MergeThread(t, rows));
  }

  /**
   * With a watermark that may lead (another tab wrote the shared cache), the merge is complete
   * exactly when the thread held no server row or the agent has none between the two.
   */
  lemma DeltaGapFreeIff(log: seq<Msg>, agent: string, t: seq<Msg>, rows: seq<Msg>, since: int, known: int, hi: int)
    requires GapFree(log, agent, t, known) && IsDelta(log, agent, rows, since, hi)
    requires known <= hi && since <= hi
    ensures GapFree(log, agent, MergeThread(t, rows), hi)
        <==> IdSet(t) == {} || IdsIn(log, agent, known, since) == {}
  {
    hide MergeThread, Distinct, Stamped;
    MergeIds(t, rows);
    MergeDistinct(t, rows);
    MergeStamped(log, t, rows);
    var merged := MergeThread(t, rows);
    var lo := LoBelowHi(log, agent, t, known);
    var ids := IdsIn(log, agent, lo, known) + IdsIn(log, agent, since, hi);
    assert IdSet(merged) == ids;
    if IdSet(t) == {} {
      assert IsSegment(log, agent, merged, since, hi);
    } else if IdsIn(log, agent, known, since) == {} {
      var low := if lo < since then lo else since;
      assert ids == IdsIn(log, agent, low, hi) by {
        forall k | k in IdsIn(log, agent, low, hi) ensures k in ids {
          assert known < k <= since ==> k in IdsIn(log, agent, known, since);
        }
      }
      assert IsSegment(log, agent, merged, low, hi);
    } else {
      var held :| held in IdSet(t);
      var lost :| lost in IdsIn(log, agent, known, since);
      MissingRow(log, agent, merged, held, lost, hi);
    }
  }

  lemma MissingRow(log: seq<Msg>, agent: string, t: seq<Msg>, held: int, lost: int, hi: int)
    requires held in IdSet(t) && lost !in IdSet(t) && held < lost <= hi
    requires exists m :: m in log && m.agent == agent && m.id == lost
    ensures !GapFree(log, agent, t, hi)
  {
    forall lo ensures !IsSegment(log, agent, t, lo, hi) {
      assert IsSegment(log, agent, t, lo, hi) ==> lo < held;
      assert lo < held ==> lost in IdsIn(log, agent, lo, hi);
    }
  }

  // ── the cap ──

  /** Every server row the cap leaves out is older than every one it keeps. */
  ghost predicate CapSafe(t: seq<Msg>) {
    forall m, n :: m in CappedOff(t) && n in Cap(t) ==> m.id < n.id
  }

  lemma CapSplits(t: seq<Msg>)
    ensures Positive(t) == CappedOff(t) + Cap(t)
    ensures forall m :: m in Positive(t) <==> m in CappedOff(t) || m in Cap(t)
    ensures forall m :: m in Cap(t) || m in CappedOff(t) ==> m in t && m.id > 0
    ensures IdSet(t) == IdSet(CappedOff(t)) + IdSet(Cap(t))
  {
    PositiveIds(t);
    assert Positive(t) == CappedOff(t) + Cap(t);
  }

  lemma SplitDistinct(off: seq<Msg>, kept: seq<Msg>)
    requires Distinct(off + kept)
    ensures Distinct(kept)
    ensures forall m, n :: m in off && n in kept && m.id > 0 ==> m.id != n.id
  {
    var p := off + kept;
    forall i, j | 0 <= i < j < |kept| && kept[i].id > 0 ensures kept[i].id != kept[j].id {
      assert p[|off| + i] == kept[i] && p[|off| + j] == kept[j];
    }
    forall m, n | m in off && n in kept && m.id > 0 ensures m.id != n.id {
      var i :| 0 <= i < |off| && off[i] == m;
      var j :| 0 <= j < |kept| && kept[j] == n;
      assert p[i] == m && p[|off| + j] == n;
    }
  }

  lemma SplitIncreasing(off: seq<Msg>, kept: seq<Msg>)
    requires Increasing(off + kept)
    ensures Increasing(kept)
    ensures forall m, n :: m in off && n in kept && m.id > 0 && n.id > 0 ==> m.id < n.id
  {
    var p := off + kept;
    forall i, j | 0 <= i < j < |kept| && kept[i].id > 0 && kept[j].id > 0 ensures kept[i].id < kept[j].id {
      assert p[|off| + i] == kept[i] && p[|off| + j] == kept[j];
    }
    forall m, n | m in off && n in kept && m.id > 0 && n.id > 0 ensures m.id < n.id {
      var i :| 0 <= i < |off| && off[i] == m;
      var j :| 0 <= j < |kept| && kept[j] == n;
      assert p[i] == m && p[|off| + j] == n;
    }
  }

  lemma CapDistinct(t: seq<Msg>)
    requires Distinct(t)
    ensures Distinct(Cap(t))
    ensures IdSet(CappedOff(t)) !! IdSet(Cap(t))
  {
    hide Cap, CappedOff, Positive, Distinct;
    PositiveDistinct(t);
    CapSplits(t);
    SplitDistinct(CappedOff(t), Cap(t));
  }

  /** An ordered thread is always cut safely. */
  lemma IncreasingIsCapSafe(t: seq<Msg>)
    requires Increasing(t)
    ensures CapSafe(t) && Increasing(Cap(t))
  {
    hide Cap, CappedOff, Positive, Increasing;
    PositiveIncreasing(t);
    CapSplits(t);
    SplitIncreasing(CappedOff(t), Cap(t));
  }

  lemma MaxId(s: set<int>, some: int) returns (x: int)
    requires some in s
    ensures x in s && forall y :: y in s ==> y <= x
    decreases s
  {
    if y :| y in s && y > some {
      var rest := s - {some};
      x := MaxId(rest, y);
      forall z | z in s ensures z <= x {
        assert z == some || z in rest;
      }
    } else {
      x := some;
    }
  }

  /** The capped thread is still gap-free up to `hi` exactly when the cut is safe. */
  lemma CapIff(log: seq<Msg>, agent: string, t: seq<Msg>, hi: int)
    requires GapFree(log, agent, t, hi)
    ensures GapFree(log, agent, Cap(t), hi) <==> CapSafe(t)
  {
    hide Cap, CappedOff, GapFree;
    if CapSafe(t) {
      SafeCapIsSegment(log, agent, t, hi);
    } else {
      var m, n :| m in CappedOff(t) && n in Cap(t) && m.id >= n.id;
      UnsafeCut(log, agent, t, m, n, hi);
    }
  }

  lemma UnsafeCut(log: seq<Msg>, agent: string, t: seq<Msg>, m: Msg, n: Msg, hi: int)
    requires GapFree(log, agent, t, hi) && m in CappedOff(t) && n in Cap(t) && m.id >= n.id
    ensures !GapFree(log, agent, Cap(t), hi)
  {
    hide Cap, CappedOff, Distinct, Stamped, IsSegment;
    CapSplits(t);
    CapDistinct(t);
    assert m.id in IdSet(CappedOff(t)) && n.id in IdSet(Cap(t)) && m.id in IdSet(t);
    LostToCap(log, agent, t, m.id, hi);
    MissingRow(log, agent, Cap(t), n.id, m.id, hi);
  }

  lemma LostToCap(log: seq<Msg>, agent: string, t: seq<Msg>, id: int, hi: int)
    requires GapFree(log, agent, t, hi) && id in IdSet(t)
    ensures id <= hi && exists r :: r in log && r.agent == agent && r.id == id
  {
    var lo :| IsSegment(log, agent, t, lo, hi);
    assert id in IdsIn(log, agent, lo, hi);
  }

  lemma SafeCapIsSegment(log: seq<Msg>, agent: string, t: seq<Msg>, hi: int)
    requires GapFree(log, agent, t, hi) && CapSafe(t)
    ensures GapFree(log, agent, Cap(t), hi)
  {
    hide Cap, CappedOff, Distinct;
    CapSplits(t);
    CapDistinct(t);
    var lo := LoBelowHi(log, agent, t, hi);
    var off, kept := IdSet(CappedOff(t)), IdSet(Cap(t));
    if off == {} {
      assert IsSegment(log, agent, Cap(t), lo, hi);
    } else {
      var some :| some in off;
      var cut := MaxId(off, some);
      assert cut in IdSet(t);
      SafeCut(t, cut);
      assert kept == IdsIn(log, agent, cut, hi) by {
        assert IdSet(t) == off + kept;
        assert IdSet(t) == IdsIn(log, agent, lo, hi);
        assert cut > lo;
      }
      assert IsSegment(log, agent, Cap(t), cut, hi);
    }
  }

  lemma SafeCut(t: seq<Msg>, cut: int)
    requires CapSafe(t) && cut in IdSet(CappedOff(t))
    ensures forall k :: k in IdSet(Cap(t)) ==> cut < k
  {
    hide Cap, CappedOff;
    var m :| m in CappedOff(t) && m.id > 0 && m.id == cut;
    forall k | k in IdSet(Cap(t)) ensures cut < k {
      var n :| n in Cap(t) && n.id > 0 && n.id == k;
    }
  }
}
