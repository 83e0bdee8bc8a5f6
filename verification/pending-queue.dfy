/** The pending-message table as the database object updates it, row by row. */
module PendingQueueTable {
  import opened Options
  import opened DeliveryQueue

  ghost predicate Ascending(ids: seq<int>) {
    forall i, j :: 0 <= i < j < |ids| ==> ids[i] < ids[j]
  }

  function StaleIds(rows: map<int, Row>, timeout: int, now: int): set<int> {
    set id | id in rows && IsStale(rows[id], timeout, now)
  }

  function ResetBelow(rows: map<int, Row>, id: int, timeout: int, now: int): map<int, Row> {
    map k | k in rows :: if k < id && IsStale(rows[k], timeout, now) then Revived(rows[k], now) else rows[k]
  }

  function StaleBelow(rows: map<int, Row>, id: int, timeout: int, now: int): set<int> {
    set k | k in rows && k < id && IsStale(rows[k], timeout, now)
  }

  lemma ResetOne(rows: map<int, Row>, id: int, timeout: int, now: int)
    ensures id in ResetBelow(rows, id, timeout, now) <==> id in rows
    ensures id in rows ==> ResetBelow(rows, id, timeout, now)[id] == rows[id]
    ensures ResetBelow(rows, id + 1, timeout, now)
         == if id in rows && IsStale(rows[id], timeout, now)
            then ResetBelow(rows, id, timeout, now)[id := Revived(rows[id], now)]
            else ResetBelow(rows, id, timeout, now)
    ensures |StaleBelow(rows, id + 1, timeout, now)|
         == |StaleBelow(rows, id, timeout, now)| + if id in rows && IsStale(rows[id], timeout, now) then 1 else 0
  {
    hide IsStale, Revived;
    var one := if id in rows && IsStale(rows[id], timeout, now) then {id} else {};
    assert StaleBelow(rows, id + 1, timeout, now) == StaleBelow(rows, id, timeout, now) + one;
  }

  lemma ResetEnds(rows: map<int, Row>, id: int, timeout: int, now: int)
    ensures (forall k :: k in rows ==> k < id) ==>
      (ResetBelow(rows, id, timeout, now) == ResetStale(Table(rows, id), timeout, now).rows
       && StaleBelow(rows, id, timeout, now) == StaleIds(rows, timeout, now))
    ensures (forall k :: k in rows ==> k >= id) ==>
      (ResetBelow(rows, id, timeout, now) == rows && StaleBelow(rows, id, timeout, now) == {})
    ensures forall t: Table :: t.rows == rows ==>
      ResetStale(t, timeout, now) == t.(rows := ResetStale(Table(rows, id), timeout, now).rows)
  {
    hide IsStale, Revived;
  }

  class PendingQueue {
    var rows: map<int, Row>
    var nextId: int

    ghost function View(): Table
      reads this
    {
      Table(rows, nextId)
    }

    constructor ()
      ensures View() == Table(map[], 1)
    {
      rows, nextId := map[], 1;
    }

    method EnqueueMessage(source: Option<string>, target: string, envelope: string) returns (id: int)
      modifies this
      ensures id == old(nextId) && View() == Enqueue(old(View()), source, target, envelope)
    {
      id := nextId;
      rows := rows[id := Row(source, target, envelope, Pending, 0, None, None, None, None)];
      nextId := nextId + 1;
    }

    /** Rows carry autoincrement ids. */
    ghost predicate Valid()
      reads this
    {
      forall id :: id in rows ==> 1 <= id < nextId
    }

    /** The due rows of an agent, oldest id first; its first element is what the dispatcher takes. */
    method GetDeliverable(agent: string, now: int) returns (ids: seq<int>)
      requires Valid()
      ensures Ascending(ids)
      ensures forall id :: id in ids <==> id in rows && Due(rows[id], agent, now)
      ensures |ids| > 0 ==> IsHead(View(), agent, now, ids[0])
      ensures |ids| == 0 ==> forall id :: id in rows ==> !Due(rows[id], agent, now)
    {
      ids := [];
      var id := 1;
      while id < nextId
        invariant Ascending(ids)
        invariant forall k :: k in ids <==> k in rows && k < id && Due(rows[k], agent, now)
      {
        if id in rows && Due(rows[id], agent, now) {
          assert forall i :: 0 <= i < |ids| ==> ids[i] in ids;
          ids := ids + [id];
        }
        id := id + 1;
      }
      if |ids| > 0 {
        assert ids[0] in ids;
        forall k | k in ids ensures ids[0] <= k {
          var i :| 0 <= i < |ids| && ids[i] == k;
        }
      } else {
        assert forall k :: k !in ids;
      }
    }

    method MarkAttemptStarted(id: int, now: int)
      modifies this`rows
      ensures View() == Put(old(View()), id, r => Started(r, now))
    {
      if id in rows {
        rows := rows[id := rows[id].(lastAttempt := Some(now))];
      }
    }

    method MarkMessageDelivered(id: int, now: int)
      modifies this`rows
      ensures View() == Put(old(View()), id, r => Sent(r, now))
    {
      if id in rows {
        rows := rows[id := rows[id].(status := Delivered, deliveredAt := Some(now))];
      }
    }

    method MarkAttemptFailed(id: int, error: string, now: int)
      modifies this`rows
      ensures View() == Put(old(View()), id, r => Missed(r, error, now))
    {
      if id !in rows {
        return;
      }
      var retries := rows[id].retries + 1;
      if retries >= MAX_DELIVERY_RETRIES {
        rows := rows[id := rows[id].(status := Failed, retries := retries, error := Some(error))];
      } else {
        var backoff := 30 * Pow2(retries - 1);
        rows := rows[id := rows[id].(retries := retries, error := Some(error), nextAttempt := Some(now + backoff))];
      }
    }

    method ResetStaleAttempts(timeout: int, now: int) returns (changes: nat)
      requires Valid()
      modifies this`rows
      ensures View() == ResetStale(old(View()), timeout, now)
      ensures changes == |StaleIds(old(rows), timeout, now)|
    {
      hide IsStale, Revived, ResetBelow, StaleBelow, ResetStale, StaleIds;
      ghost var before := rows;
      ResetEnds(rows, 1, timeout, now);
      var id := 1;
      changes := 0;
      while id < nextId
        invariant id >= 1
        invariant rows == ResetBelow(before, id, timeout, now) && changes == |StaleBelow(before, id, timeout, now)|
      {
        ResetOne(before, id, timeout, now);
        if id in rows && IsStale(rows[id], timeout, now) {
          rows := rows[id := Revived(rows[id], now)];
          changes := changes + 1;
        }
        id := id + 1;
      }
      ResetEnds(before, id, timeout, now);
    }

    method CancelPendingMessage(id: int)
      modifies this`rows
      ensures View() == Put(old(View()), id, r => Cancelled(r))
    {
      if id in rows {
        if rows[id].status == Pending {
          rows := rows[id := rows[id].(status := Failed, error := Some(WITHDRAWN))];
        } else {
          assert rows == rows[id := rows[id]];
        }
      }
    }

    method ClearPendingMessages(agent: string)
      requires Valid()
      modifies this`rows
      ensures View() == Clear(old(View()), agent)
    {
      ghost var before := rows;
      assert forall k :: k in before ==> 1 <= k < nextId;
      var id := 1;
      while id < nextId
        invariant forall k :: k in rows <==> k in before && !(k < id && Clears(before[k], agent))
        invariant forall k :: k in rows ==> rows[k] == before[k]
      {
        if id in rows && Clears(rows[id], agent) {
          rows := rows - {id};
        }
        id := id + 1;
      }
      ghost var cleared := Clear(Table(before, nextId), agent).rows;
      assert forall k :: k in rows <==> k in cleared;
      assert rows == cleared;
    }
  }
}
