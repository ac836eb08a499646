/** The rows of the background-job table and what each write does to them.

    A row is created `Running`, settles once into a terminal status, is drained into
    its origin session once, and may be dismissed from the panel.  Every function here
    is the effect of one SQL statement of background/store.py on the whole table. */
module JobTable {
  import opened Wrappers

  type JobId = string

  datatype Status = Running | Completed | Failed | Canceled

  datatype Job = Job(
    session: string,
    batch: Option<string>,
    deterministic: bool,
    taskId: string,
    status: Status,
    result: string,
    completedAt: int,
    notified: bool,
    dismissed: bool)

  type Table = map<JobId, Job>

  const INTERRUPTED := "Interrupted — the background turn did not complete before a restart."

  /** The batch key as it is stored: the empty key is stored as no key. */
  function StoredBatch(batch: Option<string>): Option<string> {
    if batch == Some("") then None else batch
  }

  function Inserted(t: Table, id: JobId, session: string, batch: Option<string>, deterministic: bool): Table {
    t[id := Job(session, StoredBatch(batch), deterministic, "", Running, "", 0, false, false)]
  }

  /** `UPDATE … WHERE id = ? AND status = 'running'`. */
  function Settled(t: Table, id: JobId, status: Status, result: string, at: int): Table {
    if id in t && t[id].status.Running?
    then t[id := t[id].(status := status, result := result, completedAt := at)]
    else t
  }

  /** Settled rows of a session that no drain has returned yet. */
  function Pending(t: Table, session: string): set<JobId> {
    set id | id in t && t[id].session == session && !t[id].status.Running? && !t[id].notified
  }

  /** Sets the notified flag on a set of rows. */
  function Flagged(t: Table, ids: set<JobId>): Table {
    map id | id in t :: if id in ids then t[id].(notified := true) else t[id]
  }

  function RunningRows(t: Table): set<JobId> {
    set id | id in t && t[id].status.Running?
  }

  function Interrupted(t: Table, at: int): Table {
    map id | id in t ::
      if t[id].status.Running?
      then t[id].(status := Failed, result := INTERRUPTED, completedAt := at)
      else t[id]
  }

  /** The rows a dismissal of the whole panel, or of one session's panel, would hide. */
  function Dismissable(t: Table, session: Option<string>): set<JobId> {
    set id | id in t && !t[id].status.Running? && !t[id].dismissed
             && (session.None? || t[id].session == session.value)
  }

  function Dismissed(t: Table, ids: set<JobId>): Table {
    map id | id in t :: if id in ids then t[id].(dismissed := true) else t[id]
  }

  /** Fills the task handle only when it is still blank. */
  function Announced(t: Table, id: JobId, taskId: string): Table {
    if id in t && t[id].taskId == "" then t[id := t[id].(taskId := taskId)] else t
  }

  // ---- Fan-out batches --------------------------------------------------------

  /** The jobs of a batch; the blank key names no batch at all. */
  function Members(t: Table, batch: string): set<JobId> {
    set id | id in t && batch != "" && t[id].batch == Some(batch)
  }

  function InStatus(t: Table, batch: string, status: Status): set<JobId> {
    set id | id in t && batch != "" && t[id].batch == Some(batch) && t[id].status == status
  }

  /** The four status tallies of a batch always add up to its size. */
  lemma TalliesSumToSize(t: Table, batch: string)
    ensures |InStatus(t, batch, Running)| + |InStatus(t, batch, Completed)|
            + |InStatus(t, batch, Failed)| + |InStatus(t, batch, Canceled)| == |Members(t, batch)|
  {
    var r, c := InStatus(t, batch, Running), InStatus(t, batch, Completed);
    var f, x := InStatus(t, batch, Failed), InStatus(t, batch, Canceled);
    assert |r + c| == |r| + |c|;
    assert |(r + c) + f| == |r + c| + |f|;
    assert |(r + c + f) + x| == |r + c + f| + |x|;
    assert r + c + f + x == Members(t, batch);
  }
}
