/** The messages table and its statements (src/msgate/queue/repository.py). */
module Repository {
  import opened Options
  import opened DeliveryModel

  /** The earliest due row among the first `n`. */
  predicate IsFirstBelow(rows: seq<Row>, now: real, n: nat, id: nat)
    requires n <= |rows|
  {
    && id < n && IsDue(rows[id], now)
    && forall j :: 0 <= j < n && IsDue(rows[j], now) ==> rows[id].createdAt <= rows[j].createdAt
  }

  /** Whenever some row is due, there is a first one. */
  lemma {:induction false} FirstDueExists(rows: seq<Row>, now: real, n: nat) returns (pick: Option<nat>)
    requires n <= |rows|
    ensures pick.Some? ==> IsFirstBelow(rows, now, n, pick.value)
    ensures pick.None? ==> forall j :: 0 <= j < n ==> !IsDue(rows[j], now)
  {
    if n == 0 {
      pick := None;
    } else {
      pick := FirstDueExists(rows, now, n - 1);
      if IsDue(rows[n - 1], now) && (pick.None? || rows[n - 1].createdAt < rows[pick.value].createdAt) {
        pick := Some(n - 1);
      }
    }
  }

  lemma NothingOrFirst(rows: seq<Row>, now: real)
    ensures NothingDue(rows, now) || exists id :: 0 <= id < |rows| && IsFirstDue(rows, now, id)
  {
    var pick := FirstDueExists(rows, now, |rows|);
    if pick.Some? {
      assert IsFirstDue(rows, now, pick.value);
    }
  }

  /** Counting the pending positions gives the sum of the pending weights. */
  lemma {:induction false} PendingIsCount(rows: seq<Row>)
    ensures |(set i | 0 <= i < |rows| && IsPending(rows[i]))| == Pending(rows)
  {
    if rows != [] {
      var n := |rows| - 1;
      PendingIsCount(rows[..n]);
      var all, before := set i | 0 <= i < |rows| && IsPending(rows[i]), set i | 0 <= i < n && IsPending(rows[..n][i]);
      assert all == before + if IsPending(rows[n]) then {n} else {};
    }
  }

  /** A row that waits, and whose time has come. */
  predicate MayBeClaimed(row: Row, now: real) {
    && (row.status == Queued || row.status == Retrying)
    && match row.retryAt
       case None => true
       case Some(due) => due <= now
  }

  /** The row may be claimed, and none that may be was created earlier. */
  predicate IsOldest(rows: seq<Row>, now: real, id: nat) {
    && id < |rows| && MayBeClaimed(rows[id], now)
    && forall j :: 0 <= j < |rows| && MayBeClaimed(rows[j], now) ==> rows[id].createdAt <= rows[j].createdAt
  }

  class MessageTable {
    var rows: seq<Row>

    constructor ()
      ensures rows == []
    {
      rows := [];
    }

    method InsertMessage(now: real) returns (id: nat)
      modifies this
      ensures id == old(|rows|) && rows == old(rows) + [NewRow(now)]
      ensures rows[id] == Row(Queued, 0, Some(now), now)
    {
      id := |rows|;
      rows := rows + [NewRow(now)];
    }

    /** The SELECT of `pending_messages(limit=1)`: complete as well as correct, so nothing due is ever overlooked. */
    method SelectFirst(now: real) returns (pick: Option<nat>)
      ensures pick.Some? ==> IsFirstDue(rows, now, pick.value)
      ensures pick.None? ==> NothingDue(rows, now)
      ensures pick.Some? ==> IsOldest(rows, now, pick.value)
      ensures pick.None? ==> forall j :: 0 <= j < |rows| ==> !MayBeClaimed(rows[j], now)
    {
      NothingOrFirst(rows, now);
      if exists id :: 0 <= id < |rows| && IsFirstDue(rows, now, id) {
        var id :| 0 <= id < |rows| && IsFirstDue(rows, now, id);
        pick := Some(id);
      } else {
        pick := None;
      }
    }

    /** The guarded UPDATE: one atomic compare-and-set on the status. */
    method ClaimRow(id: nat) returns (matched: bool)
      requires id < |rows|
      modifies this
      ensures matched == (old(rows[id].status) == Queued || old(rows[id].status) == Retrying)
      ensures matched ==>
                var row := old(rows[id]);
                rows == old(rows)[id := Row(Processing, row.attempts + 1, row.retryAt, row.createdAt)]
      ensures rows == if matched then old(rows)[id := Claimed(old(rows[id]))] else old(rows)
    {
      matched := IsPending(rows[id]);
      if matched {
        rows := rows[id := rows[id].(status := Processing, attempts := rows[id].attempts + 1)];
      }
    }

    method CountPending() returns (n: nat)
      ensures n == Pending(rows)
      ensures n == |(set i | 0 <= i < |rows| && (rows[i].status == Queued || rows[i].status == Retrying))|
    {
      PendingIsCount(rows);
      assert (set i | 0 <= i < |rows| && IsPending(rows[i]))
             == (set i | 0 <= i < |rows| && (rows[i].status == Queued || rows[i].status == Retrying));
      n := |(set i | 0 <= i < |rows| && IsPending(rows[i]))|;
    }

    method MarkSent(id: nat)
      requires id < |rows|
      modifies this
      ensures rows == old(rows)[id := MarkedSent(old(rows[id]))]
      ensures rows[id] == Row(Sent, old(rows[id].attempts), None, old(rows[id].createdAt))
    {
      rows := rows[id := rows[id].(status := Sent, retryAt := None)];
    }

    method MarkRetry(id: nat, delay: real, now: real)
      requires id < |rows|
      modifies this
      ensures rows == old(rows)[id := MarkedRetry(old(rows[id]), delay, now)]
      ensures rows[id] == Row(Retrying, old(rows[id].attempts), Some(now + delay), old(rows[id].createdAt))
    {
      rows := rows[id := rows[id].(status := Retrying, retryAt := Some(now + delay))];
    }

    method MarkFailed(id: nat)
      requires id < |rows|
      modifies this
      ensures rows == old(rows)[id := MarkedFailed(old(rows[id]))]
      ensures rows[id] == Row(Failed, old(rows[id].attempts), None, old(rows[id].createdAt))
    {
      rows := rows[id := rows[id].(status := Failed, retryAt := None)];
    }
  }
}
