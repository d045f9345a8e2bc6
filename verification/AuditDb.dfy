/**
 The audit's table as a database that `start` and `finish` write: orphans closed one by one, expired and
 excess records deleted, one row inserted or updated, all of it undone when the write is refused.
 */
module AuditDb {
  import opened AuditTable
  import opened Options

  class AuditStore {
    var rows: Table

    constructor ()
      ensures rows == map[]
    {
      rows := map[];
    }

    method AbandonOrphans(b: Bridge)
      modifies this
      ensures rows == Closed(old(rows), b)
    {
      var orphans := set id | id in rows && Orphan(b, rows[id]);
      var left := orphans;
      while left != {}
        invariant left <= orphans && rows.Keys == old(rows.Keys)
        invariant forall id :: id in rows ==> rows[id] == if id in orphans && id !in left then Close(b, old(rows[id])) else old(rows[id])
        decreases |left|
      {
        var id :| id in left;
        rows := rows[id := rows[id].(status := Abandoned, finishedAt := Some(b.now))];
        left := left - {id};
      }
    }

    method DeleteOldest(count: nat)
      modifies this
      ensures rows == Evicted(old(rows), count)
    {
      var left := count;
      while left > 0 && FinishedIds(rows) != {}
        invariant Evicted(rows, left) == Evicted(old(rows), count)
        decreases left
      {
        OldestExists(rows);
        var id :| id in rows && Oldest(rows, id);
        ghost var chosen := EvictedUnfolds(rows, left);
        OldestIsUnique(rows, id, chosen);
        rows := rows - {id};
        left := left - 1;
      }
    }

    method Prune(b: Bridge, reserve: nat)
      modifies this
      ensures rows == Pruned(old(rows), b, reserve)
    {
      AbandonOrphans(b);
      rows := map id | id in rows && !Expired(b, rows[id]) :: rows[id];
      var excess := |rows| - b.maxRows + reserve;
      if excess > 0 { DeleteOldest(excess); } else { assert rows == Evicted(rows, 0); }
    }

    method StartRecord(b: Bridge, id: RunId) returns (result: Result)
      requires b.maxRows >= 1
      modifies this
      ensures (rows, result) == Start(old(rows), b, id)
    {
      var before := rows;
      Prune(b, 1);
      if |rows| >= b.maxRows || id in rows {
        rows := before;
        return Refused;
      }
      rows := rows[id := Run(Started, b.now, None, b.instance, b.pid)];
      result := Written;
    }

    method FinishRecord(b: Bridge, id: RunId, outcome: string) returns (result: Result)
      requires b.maxRows >= 1
      modifies this
      ensures (rows, result) == Finish(old(rows), b, id, outcome)
    {
      var before := rows;
      Prune(b, 0);
      if id !in rows {
        rows := before;
        return Refused;
      }
      rows := rows[id := rows[id].(status := Ended(outcome), finishedAt := Some(b.now))];
      result := Written;
    }
  }
}
