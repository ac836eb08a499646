/** The background-job store: one table of rows, read and updated in place.

    Each method is one transaction.  ExactlyOnce proves what every run of them keeps. */
module BackgroundStore {
  import opened Wrappers
  import opened JobTable
  import ExactlyOnce

  datatype MarkResult = NotTerminal | Marked(transitioned: bool)

  /** The jobs a list of reports is about. */
  function Ids(reports: seq<(JobId, Job)>): set<JobId> {
    set r | r in reports :: r.0
  }

  lemma IdsGrow(reports: seq<(JobId, Job)>, r: (JobId, Job))
    ensures Ids(reports + [r]) == Ids(reports) + {r.0}
  {
    forall id | id in Ids(reports) + {r.0} ensures id in Ids(reports + [r]) {
      if id == r.0 {
        assert r in reports + [r];
      } else {
        var q :| q in reports && q.0 == id;
        assert q in reports + [r];
      }
    }
  }

  class Store {
    var rows: Table

    constructor ()
      ensures rows == map[]
    {
      rows := map[];
    }

    /** Inserts a running row; an id that is already taken is a primary-key error. */
    method Create(id: JobId, session: string, batch: Option<string>, deterministic: bool) returns (ok: bool)
      modifies this
      ensures ok <==> id !in old(rows)
      ensures rows == ExactlyOnce.Apply(old(rows), ExactlyOnce.Create(id, session, batch, deterministic))
    {
      if id in rows {
        return false;
      }
      var stored := if batch == Some("") then None else batch;
      rows := rows[id := Job(session, stored, deterministic, "", Running, "", 0, false, false)];
      return true;
    }

    method SetTaskId(id: JobId, taskId: string)
      modifies this
      ensures rows == ExactlyOnce.Apply(old(rows), ExactlyOnce.Announce(id, taskId))
    {
      if taskId == "" {
        assert Announced(rows, id, taskId) == rows;
        return;
      }
      if id in rows && rows[id].taskId == "" {
        rows := rows[id := rows[id].(taskId := taskId)];
      }
    }

    /** Settles a running row; a row that is already terminal keeps its verdict. */
    method MarkComplete(id: JobId, status: Status, result: string, at: int) returns (r: MarkResult)
      modifies this
      ensures r.NotTerminal? <==> status.Running?
      ensures r.Marked? ==> (r.transitioned <==> id in old(rows) && old(rows)[id].status.Running?)
      ensures rows == ExactlyOnce.Apply(old(rows), ExactlyOnce.Mark(id, status, result, at))
    {
      if status.Running? {
        return NotTerminal;
      }
      if id in rows && rows[id].status.Running? {
        rows := rows[id := rows[id].(status := status, result := result, completedAt := at)];
        return Marked(true);
      }
      return Marked(false);
    }

    /** Returns the session's settled, unannounced rows, oldest completion first, and
        flags exactly those. */
    method DrainPending(session: string) returns (reports: seq<(JobId, Job)>)
      modifies this
      ensures Ids(reports) == Pending(old(rows), session)
      ensures forall i, j :: 0 <= i < j < |reports| ==> reports[i].0 != reports[j].0
      ensures forall i, j :: 0 <= i < j < |reports| ==> reports[i].1.completedAt <= reports[j].1.completedAt
      ensures forall i :: 0 <= i < |reports| ==>
                reports[i].0 in old(rows) && reports[i].1 == old(rows)[reports[i].0]
      ensures rows == ExactlyOnce.Apply(old(rows), ExactlyOnce.Drain(session))
    {
      var left := Pending(rows, session);
      var all := left;
      reports := [];
      while left != {}
        invariant rows == old(rows)
        invariant left <= all == Pending(rows, session)
        invariant Ids(reports) == all - left
        invariant forall i, j :: 0 <= i < j < |reports| ==> reports[i].0 != reports[j].0
        invariant forall i, j :: 0 <= i < j < |reports| ==> reports[i].1.completedAt <= reports[j].1.completedAt
        invariant forall i :: 0 <= i < |reports| ==> reports[i].0 in rows && reports[i].1 == rows[reports[i].0]
        invariant forall i, id :: 0 <= i < |reports| && id in left ==>
                    reports[i].1.completedAt <= rows[id].completedAt
        decreases left
      {
        var id := Oldest(left);
        IdsGrow(reports, (id, rows[id]));
        reports, left := reports + [(id, rows[id])], left - {id};
      }
      if reports != [] {
        rows := map id | id in rows :: if id in all then rows[id].(notified := true) else rows[id];
      } else {
        assert all == {};
        assert Flagged(rows, {}) == rows;
      }
    }

    /** A row of the set with the smallest completion time. */
    method Oldest(ids: set<JobId>) returns (oldest: JobId)
      requires ids != {} && forall id :: id in ids ==> id in rows
      ensures oldest in ids
      ensures forall id :: id in ids ==> rows[oldest].completedAt <= rows[id].completedAt
    {
      oldest :| oldest in ids;
      var left := ids - {oldest};
      while left != {}
        invariant left <= ids && oldest in ids
        invariant forall id :: id in ids - left ==> rows[oldest].completedAt <= rows[id].completedAt
        decreases left
      {
        var id :| id in left;
        if rows[id].completedAt < rows[oldest].completedAt {
          oldest := id;
        }
        left := left - {id};
      }
    }

    /** Fails every running row: its turn died with the process. */
    method ReconcileInterrupted(at: int) returns (n: nat)
      modifies this
      ensures n == |RunningRows(old(rows))|
      ensures rows == ExactlyOnce.Apply(old(rows), ExactlyOnce.Reconcile(at))
    {
      n := |RunningRows(rows)|;
      rows := map id | id in rows ::
        if rows[id].status.Running?
        then rows[id].(status := Failed, result := INTERRUPTED, completedAt := at)
        else rows[id];
    }

    method Dismiss(id: JobId) returns (dismissed: bool)
      modifies this
      ensures dismissed <==> id in Dismissable(old(rows), None)
      ensures rows == ExactlyOnce.Apply(old(rows), ExactlyOnce.Dismiss(id))
    {
      if id in rows && !rows[id].status.Running? && !rows[id].dismissed {
        rows := rows[id := rows[id].(dismissed := true)];
        return true;
      }
      return false;
    }

    method DismissFinished(scope: Option<string>) returns (n: nat)
      modifies this
      ensures n == |Dismissable(old(rows), scope)|
      ensures rows == ExactlyOnce.Apply(old(rows), ExactlyOnce.DismissFinished(scope))
    {
      var hit := Dismissable(rows, scope);
      n := |hit|;
      rows := map id | id in rows :: if id in hit then rows[id].(dismissed := true) else rows[id];
    }

    /** Counts every job in a batch; zero for a blank or unknown batch. */
    method BatchSize(batch: string) returns (n: nat)
      ensures n == |Members(rows, batch)|
    {
      if batch == "" {
        assert Members(rows, batch) == {};
        return 0;
      }
      n := |set id | id in rows && rows[id].batch == Some(batch)|;
      assert Members(rows, batch) == set id | id in rows && rows[id].batch == Some(batch);
    }

    method BatchOutstanding(batch: string) returns (n: nat)
      ensures n == |InStatus(rows, batch, Running)|
    {
      n := BatchStatusCount(batch, Running);
    }

    /** One entry of the per-status tallies. */
    method BatchStatusCount(batch: string, status: Status) returns (n: nat)
      ensures n == |InStatus(rows, batch, status)|
    {
      if batch == "" {
        assert InStatus(rows, batch, status) == {};
        return 0;
      }
      n := |set id | id in rows && rows[id].batch == Some(batch) && rows[id].status == status|;
      assert InStatus(rows, batch, status)
          == set id | id in rows && rows[id].batch == Some(batch) && rows[id].status == status;
    }
  }
}
