/** The background manager, updated in place: one method for each run of its code between
    two suspension points, each proved to be one action of the transition system. */
module BackgroundManager {
  import opened Wrappers
  import opened JobTable
  import BackgroundStore
  import opened BatchJoin

  /** What a terminal delivery reports at its first suspension. */
  datatype Delivery = Held | NudgedAlone | NudgedBatch

  datatype CancelReply = Unknown | Already(status: Status) | Stopped | StoppedUnannounced | AskedTurn

  /** What the end of a work coroutine comes to, apart from every other action. */
  lemma WorkReturnsStep(s: Sys, id: JobId, status: Status, text: string, at: int, deliver: bool)
    requires Enabled(s, WorkReturns(id, status, text, at, deliver))
    ensures id in s.jobs && id in s.pool.work && !status.Running?
    ensures var jobs := Settled(s.jobs, id, status, text, at);
            var p := s.pool.(free := s.pool.free + 1,
                             work := s.pool.work[id := s.pool.work[id].(phase := TaskPhase.Ended)]);
            Apply(s, WorkReturns(id, status, text, at, deliver))
            == if s.jobs[id].status.Running?
               then Sys(jobs, Scheduled(jobs, s.join, id, deliver), p.(events := p.events + multiset{id}))
               else Sys(jobs, s.join, p)
  {
  }

  lemma CancelStepApplies(s: Sys, id: JobId, at: int)
    ensures Apply(s, Action.Cancel(id, at)) == CancelStep(s, id, at)
  {
  }

  lemma StragglerWakesStep(s: Sys, task: TaskId)
    requires Enabled(s, StragglerWakes(task))
    ensures task in s.join.stragglers && s.join.stragglers[task].phase.Sleeping?
    ensures Apply(s, StragglerWakes(task)) == s.(join := Woken(s.jobs, s.join, task))
  {
  }

  class Manager {
    const store: BackgroundStore.Store

    var joined: set<string>
    var timeouts: map<string, TaskId>
    var stragglers: map<TaskId, Straggler>
    var calls: multiset<JobId>
    var nudges: seq<Nudge>
    ghost var called: set<JobId>

    var free: int
    var fires: map<JobId, TaskPhase>
    var work: map<JobId, WorkTask>
    var workTasks: set<JobId>
    var events: multiset<JobId>
    ghost var unwound: set<JobId>

    ghost function JoinState(): Join
      reads this`joined, this`timeouts, this`stragglers, this`calls, this`called, this`nudges
    {
      Join(joined, timeouts, stragglers, calls, called, nudges)
    }

    ghost function PoolState(): Pool
      reads this`free, this`fires, this`work, this`workTasks, this`events, this`unwound
    {
      Pool(free, fires, work, workTasks, events, unwound)
    }

    ghost function State(): Sys
      reads this, store
    {
      Sys(store.rows, JoinState(), PoolState())
    }

    constructor (maxConcurrency: int)
      ensures State() == Init(if maxConcurrency < 1 then 1 else maxConcurrency)
      ensures fresh(store)
    {
      store := new BackgroundStore.Store();
      joined, timeouts, stragglers, calls, nudges, called := {}, map[], map[], multiset{}, [], {};
      free := if maxConcurrency < 1 then 1 else maxConcurrency;
      fires, work, workTasks, events, unwound := map[], map[], {}, multiset{}, {};
    }

    // ---- Spawning and settling ----------------------------------------------------------

    method Spawn(id: JobId, session: string, batch: Option<string>)
      requires Enabled(State(), Action.Spawn(id, session, batch))
      modifies this, store
      ensures State() == Apply(old(State()), Action.Spawn(id, session, batch))
    {
      var ok := store.Create(id, session, batch, false);
      fires := fires[id := Queued];
    }

    method SpawnWork(id: JobId, session: string, batch: Option<string>)
      requires Enabled(State(), Action.SpawnWork(id, session, batch))
      modifies this, store
      ensures State() == Apply(old(State()), Action.SpawnWork(id, session, batch))
    {
      var ok := store.Create(id, session, batch, true);
      work := work[id := WorkTask(Queued, false)];
      workTasks := workTasks + {id};
    }

    /** The self-POST raised: fail the row unless the turn settled it first, free the slot. */
    method FireFails(id: JobId, error: string, at: int)
      requires Enabled(State(), Action.FireFails(id, error, at))
      modifies this, store
      ensures State() == Apply(old(State()), Action.FireFails(id, error, at))
    {
      var r := store.MarkComplete(id, Failed, "Background turn delivery error: " + error, at);
      fires := fires[id := TaskPhase.Ended];
      free := free + 1;
    }

    /** Publishes the completion event of a settled job and schedules its delivery, if the host wants one. */
    method AnnounceSettled(id: JobId, deliver: bool)
      requires id in store.rows
      modifies this`events, this`calls
      ensures events == old(events) + multiset{id}
      ensures JoinState() == Scheduled(store.rows, old(JoinState()), id, deliver)
    {
      events := events + multiset{id};
      if deliver && !store.rows[id].status.Canceled? {
        calls := calls + multiset{id};
      }
    }

    /** A work coroutine returned or raised: free the slot, settle, and announce only if this
        call performed the transition. */
    method RunWorkSettles(id: JobId, status: Status, text: string, at: int, deliver: bool)
      requires Enabled(State(), WorkReturns(id, status, text, at, deliver))
      modifies this, store
      ensures State() == Apply(old(State()), WorkReturns(id, status, text, at, deliver))
    {
      WorkReturnsStep(State(), id, status, text, at, deliver);
      free := free + 1;
      work := work[id := work[id].(phase := TaskPhase.Ended)];
      var r := store.MarkComplete(id, status, text, at);
      if r.transitioned {
        AnnounceSettled(id, deliver);
      }
    }

    /** The coroutine unwinds with its cancellation; nothing is settled here. */
    method RunWorkUnwinds(id: JobId)
      requires Enabled(State(), WorkUnwinds(id))
      modifies this
      ensures State() == Apply(old(State()), WorkUnwinds(id))
    {
      if work[id].phase.Holding? {
        free := free + 1;
      }
      if store.rows[id].status.Running? {
        unwound := unwound + {id};
      }
      work := work[id := work[id].(phase := TaskPhase.Ended)];
    }

    /** Stops a job.  A work task is cancelled and settled on the spot; a turn without a task
        handle is settled; otherwise the turn is asked to stop and settles later. */
    method Cancel(id: JobId, at: int) returns (reply: CancelReply)
      modifies this, store
      ensures State() == Apply(old(State()), Action.Cancel(id, at))
      ensures reply.Unknown? <==> id !in old(store.rows)
      ensures reply.Already? ==> id in old(store.rows) && reply.status == old(store.rows)[id].status != Running
      ensures reply.Stopped? || reply.StoppedUnannounced? ==> id in store.rows && store.rows[id].status.Canceled?
      ensures reply.AskedTurn? ==> id in store.rows && store.rows[id].status.Running? && store.rows[id].taskId != ""
      ensures events == if reply.Stopped? then old(events) + multiset{id} else old(events)
    {
      CancelStepApplies(State(), id, at);
      if id !in store.rows {
        return Unknown;
      }
      if !store.rows[id].status.Running? {
        return Already(store.rows[id].status);
      }
      if id in workTasks {
        if id in work && !work[id].phase.Ended? {
          work := work[id := work[id].(cancelRequested := true)];
        }
        var r := store.MarkComplete(id, Canceled, "Canceled.", at);
        events := events + multiset{id};
        return Stopped;
      }
      if store.rows[id].taskId == "" {
        var r := store.MarkComplete(id, Canceled, "Canceled before the turn registered a task id.", at);
        return StoppedUnannounced;
      }
      return AskedTurn;
    }

    /** The turn was asked to stop and its answer is in: settle the row if nothing else has. */
    method CancelLanded(id: JobId, at: int)
      requires Enabled(State(), CancelLands(id, at))
      modifies store
      ensures State() == Apply(old(State()), CancelLands(id, at))
    {
      var r := store.MarkComplete(id, Canceled, "Canceled.", at);
    }

    /** The work task's done-callback: a later cancel no longer finds it. */
    method WorkDone(id: JobId)
      requires Enabled(State(), WorkForgotten(id))
      modifies this`workTasks
      ensures State() == Apply(old(State()), WorkForgotten(id))
    {
      workTasks := workTasks - {id};
    }

    // ---- Fan-out join -----------------------------------------------------------------------

    /** Claims a batch for its one nudge; only the first caller wins. */
    method ClaimBatch(batch: string) returns (won: bool)
      modifies this`joined
      ensures won <==> batch !in old(joined)
      ensures joined == old(joined) + {batch}
    {
      if batch in joined {
        return false;
      }
      joined := joined + {batch};
      return true;
    }

    method EnsureBatchTimeout(batch: string, session: string, task: TaskId)
      requires task !in stragglers
      modifies this`timeouts, this`stragglers
      ensures JoinState() == TimeoutEnsured(old(JoinState()), batch, session, task)
    {
      if batch in timeouts || batch in joined {
        return;
      }
      timeouts := timeouts[batch := task];
      stragglers := stragglers[task := Straggler(batch, session, Sleeping)];
    }

    method CancelBatchTimeout(batch: string)
      modifies this`timeouts, this`stragglers
      ensures JoinState() == TimeoutCancelled(old(JoinState()), batch)
    {
      if batch !in timeouts {
        return;
      }
      var task := timeouts[batch];
      timeouts := timeouts - {batch};
      if task in stragglers && !stragglers[task].phase.Finished? {
        stragglers := stragglers[task := stragglers[task].(phase := CancelRequested)];
      }
    }

    /** Composes the batch nudge from the table's tallies and sends it. */
    method ResumeOriginBatch(batch: string, session: string, cause: Cause)
      modifies this`nudges
      ensures nudges == old(nudges) + [BatchNudge(store.rows, batch, session, cause)]
    {
      var running := store.BatchStatusCount(batch, Running);
      var completed := store.BatchStatusCount(batch, Completed);
      var failed := store.BatchStatusCount(batch, Failed);
      var canceled := store.BatchStatusCount(batch, Canceled);
      var total := store.BatchSize(batch);
      nudges := nudges + [Batch(batch, session, cause, total, running, completed, failed, canceled)];
    }

    /** A settled job's terminal delivery, up to its first suspension. */
    method ResumeForTerminal(id: JobId, task: TaskId) returns (d: Delivery)
      requires id in calls && id in store.rows && task !in stragglers
      modifies this`joined, this`timeouts, this`stragglers, this`calls, this`called, this`nudges
      ensures JoinState() == Resumed(store.rows, old(JoinState()), id, task)
      ensures d.Held? <==> |nudges| == |old(nudges)|
    {
      calls := calls - multiset{id};
      called := called + {id};
      var job := store.rows[id];
      var size := 0;
      if job.batch.Some? {
        size := store.BatchSize(job.batch.value);
      }
      if job.batch.None? || size <= 1 {
        nudges := nudges + [Single(id)];
        return NudgedAlone;
      }
      var batch := job.batch.value;
      var outstanding := store.BatchOutstanding(batch);
      if outstanding > 0 {
        EnsureBatchTimeout(batch, job.session, task);
        return Held;
      }
      d := JoinByLastMember(batch, job.session);
    }

    /** The last member settled: win the claim or stop; disarm the straggler; nudge. */
    method JoinByLastMember(batch: string, session: string) returns (d: Delivery)
      modifies this`joined, this`timeouts, this`stragglers, this`nudges
      ensures JoinState() == JoinedByLastMember(store.rows, old(JoinState()), batch, session)
      ensures d == if batch in old(joined) then Held else NudgedBatch
      ensures |nudges| == |old(nudges)| + if batch in old(joined) then 0 else 1
    {
      var won := ClaimBatch(batch);
      if !won {
        assert joined == old(joined);
        return Held;
      }
      CancelBatchTimeout(batch);
      ResumeOriginBatch(batch, session, LastMember);
      return NudgedBatch;
    }

    /** A straggler's sleep ends. */
    method Straggle(task: TaskId)
      requires Enabled(State(), StragglerWakes(task))
      modifies this`joined, this`stragglers, this`nudges
      ensures State() == Apply(old(State()), StragglerWakes(task))
    {
      StragglerWakesStep(State(), task);
      var t := stragglers[task];
      var won := ClaimBatch(t.batch);
      if !won {
        stragglers := stragglers[task := t.(phase := Finished)];
        assert joined == old(joined);
        return;
      }
      stragglers := stragglers[task := t.(phase := Nudging)];
      ResumeOriginBatch(t.batch, t.session, StragglerTimeout);
    }

    /** The straggler's done-callback. */
    method StragglerDone(task: TaskId)
      requires Enabled(State(), Action.StragglerForgotten(task))
      modifies this
      ensures State() == Apply(old(State()), Action.StragglerForgotten(task))
    {
      timeouts := timeouts - {stragglers[task].batch};
      stragglers := stragglers - {task};
    }
  }
}
