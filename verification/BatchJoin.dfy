/** The background manager as a transition system.

    One action is one run of code between two suspension points of the event loop, so
    actions interleave freely but never overlap.  The state is the job table, the
    fan-out join (claimed batches, armed timeouts, straggler tasks, nudges sent) and the
    task pool (the semaphore, the fire tasks, the work tasks, completion events). */
module BatchJoin {
  import opened Wrappers
  import opened JobTable

  // ---- State ------------------------------------------------------------------------

  type TaskId = nat

  /** A straggler task: asleep, asked to cancel, sending its nudge, or done with its
      done-callback still to run. */
  datatype Phase = Sleeping | CancelRequested | Nudging | Finished

  datatype Straggler = Straggler(batch: string, session: string, phase: Phase)

  datatype Cause = LastMember | StragglerTimeout

  datatype Nudge =
    | Single(id: JobId)
    | Batch(batch: string, session: string, cause: Cause, total: nat,
            running: nat, completed: nat, failed: nat, canceled: nat)

  datatype Join = Join(
    joined: set<string>,
    timeouts: map<string, TaskId>,
    stragglers: map<TaskId, Straggler>,
    calls: multiset<JobId>,   // terminal deliveries scheduled but not yet run
    called: set<JobId>,       // jobs whose terminal delivery has run
    nudges: seq<Nudge>)

  datatype TaskPhase = Queued | Holding | Ended

  datatype WorkTask = WorkTask(phase: TaskPhase, cancelRequested: bool)

  datatype Pool = Pool(
    free: int,                     // the semaphore's value
    fires: map<JobId, TaskPhase>,  // detached self-POSTed turns
    work: map<JobId, WorkTask>,    // deterministic coroutines
    workTasks: set<JobId>,         // jobs whose task a cancel can still find
    events: multiset<JobId>,       // completion events this manager published
    unwound: set<JobId>)           // work that ended by cancellation with its row still running

  datatype Sys = Sys(jobs: Table, join: Join, pool: Pool)

  function Init(slots: nat): Sys {
    Sys(map[], Join({}, map[], map[], multiset{}, {}, []), Pool(slots, map[], map[], {}, multiset{}, {}))
  }

  // ---- Fan-out join --------------------------------------------------------------------

  function BatchNudge(jobs: Table, batch: string, session: string, cause: Cause): Nudge {
    Batch(batch, session, cause, |Members(jobs, batch)|,
          |InStatus(jobs, batch, Running)|, |InStatus(jobs, batch, Completed)|,
          |InStatus(jobs, batch, Failed)|, |InStatus(jobs, batch, Canceled)|)
  }

  /** Arms one straggler for a batch unless one is armed or the batch has joined. */
  function TimeoutEnsured(j: Join, batch: string, session: string, task: TaskId): Join {
    if batch in j.timeouts || batch in j.joined then j
    else j.(timeouts := j.timeouts[batch := task],
            stragglers := j.stragglers[task := Straggler(batch, session, Sleeping)])
  }

  function TimeoutCancelled(j: Join, batch: string): Join {
    if batch !in j.timeouts then j else
    var task := j.timeouts[batch];
    j.(timeouts := j.timeouts - {batch},
       stragglers :=
         if task in j.stragglers && !j.stragglers[task].phase.Finished?
         then j.stragglers[task := j.stragglers[task].(phase := CancelRequested)]
         else j.stragglers)
  }

  /** A scheduled delivery starts to run. */
  function Taken(j: Join, id: JobId): Join {
    j.(calls := j.calls - multiset{id}, called := j.called + {id})
  }

  /** The last member of a batch claims it, disarms its straggler and nudges, once. */
  function JoinedByLastMember(jobs: Table, j: Join, batch: string, session: string): Join {
    if batch in j.joined then j else
    var claimed := TimeoutCancelled(j.(joined := j.joined + {batch}), batch);
    claimed.(nudges := claimed.nudges + [BatchNudge(jobs, batch, session, LastMember)])
  }

  /** The first run of a job's terminal delivery, up to its first suspension. */
  function Resumed(jobs: Table, j: Join, id: JobId, task: TaskId): Join
    requires id in jobs
  {
    var job, j := jobs[id], Taken(j, id);
    if job.batch.None? || |Members(jobs, job.batch.value)| <= 1 then
      j.(nudges := j.nudges + [Single(id)])
    else if |InStatus(jobs, job.batch.value, Running)| > 0 then
      TimeoutEnsured(j, job.batch.value, job.session, task)
    else JoinedByLastMember(jobs, j, job.batch.value, job.session)
  }

  /** A straggler's sleep is over: claim the batch and nudge, or stop if it has joined. */
  function Woken(jobs: Table, j: Join, task: TaskId): Join
    requires task in j.stragglers
  {
    var t := j.stragglers[task];
    if t.batch in j.joined then j.(stragglers := j.stragglers[task := t.(phase := Finished)])
    else j.(joined := j.joined + {t.batch},
            stragglers := j.stragglers[task := t.(phase := Nudging)],
            nudges := j.nudges + [BatchNudge(jobs, t.batch, t.session, StragglerTimeout)])
  }

  function StragglerOver(j: Join, task: TaskId): Join
    requires task in j.stragglers
  {
    j.(stragglers := j.stragglers[task := j.stragglers[task].(phase := Finished)])
  }

  /** The done-callback pops the batch's entry, whichever task it names. */
  function Forgotten(j: Join, task: TaskId): Join
    requires task in j.stragglers
  {
    j.(timeouts := j.timeouts - {j.stragglers[task].batch}, stragglers := j.stragglers - {task})
  }

  // ---- Actions ---------------------------------------------------------------------------

  datatype Action =
    | Spawn(id: JobId, session: string, batch: Option<string>)
    | SpawnWork(id: JobId, session: string, batch: Option<string>)
    | Acquire(id: JobId)
    | FireReturns(id: JobId)
    | FireFails(id: JobId, error: string, at: int)
    | TurnAnnounces(id: JobId, taskId: string)
    | HookSettles(id: JobId, status: Status, text: string, at: int, deliver: bool)
    | WorkReturns(id: JobId, status: Status, text: string, at: int, deliver: bool)
    | WorkUnwinds(id: JobId)
    | WorkForgotten(id: JobId)
    | Cancel(id: JobId, at: int)
    | CancelLands(id: JobId, at: int)
    | Deliver(id: JobId, task: TaskId)
    | StragglerWakes(task: TaskId)
    | StragglerEnds(task: TaskId)
    | StragglerForgotten(task: TaskId)
    | DrainSession(session: string)
    | DismissJob(id: JobId)

  ghost predicate Enabled(s: Sys, a: Action) {
    match a
    case Spawn(id, _, _) => id !in s.jobs
    case SpawnWork(id, _, _) => id !in s.jobs
    case Acquire(id) =>
      s.pool.free > 0 &&
      ((id in s.pool.fires && s.pool.fires[id].Queued?)
       || (id in s.pool.work && s.pool.work[id] == WorkTask(Queued, false)))
    case FireReturns(id) => id in s.pool.fires && s.pool.fires[id].Holding?
    case FireFails(id, _, _) => id in s.pool.fires && s.pool.fires[id].Holding?
    case TurnAnnounces(id, _) => id in s.pool.fires
    case HookSettles(id, status, _, _, _) => id in s.pool.fires && id in s.jobs && !status.Running?
    case WorkReturns(id, status, _, _, _) =>
      id in s.pool.work && id in s.jobs && s.pool.work[id].phase.Holding? && (status.Completed? || status.Failed?)
    case WorkUnwinds(id) =>
      id in s.pool.work && id in s.jobs &&
      (s.pool.work[id].phase.Holding? || s.pool.work[id] == WorkTask(Queued, true))
    case WorkForgotten(id) => id in s.pool.work && s.pool.work[id].phase.Ended?
    case Cancel(id, _) => true
    case CancelLands(id, _) => id in s.pool.fires
    case Deliver(id, task) => id in s.join.calls && id in s.jobs && task !in s.join.stragglers
    case StragglerWakes(task) => task in s.join.stragglers && s.join.stragglers[task].phase.Sleeping?
    case StragglerEnds(task) =>
      task in s.join.stragglers &&
      (s.join.stragglers[task].phase.Nudging? || s.join.stragglers[task].phase.CancelRequested?)
    case StragglerForgotten(task) => task in s.join.stragglers && s.join.stragglers[task].phase.Finished?
    case DrainSession(_) => true
    case DismissJob(_) => true
  }

  /** Schedules a terminal delivery when the host wants one; a canceled row never gets one. */
  function Scheduled(jobs: Table, j: Join, id: JobId, deliver: bool): Join
    requires id in jobs
  {
    if deliver && !jobs[id].status.Canceled? then j.(calls := j.calls + multiset{id}) else j
  }

  function CancelStep(s: Sys, id: JobId, at: int): Sys {
    if id !in s.jobs || !s.jobs[id].status.Running? then s
    else if id in s.pool.workTasks then
      s.(jobs := Settled(s.jobs, id, Canceled, "Canceled.", at),
         pool := s.pool.(
           work := if id in s.pool.work && !s.pool.work[id].phase.Ended?
                   then s.pool.work[id := s.pool.work[id].(cancelRequested := true)] else s.pool.work,
           events := s.pool.events + multiset{id}))
    else if s.jobs[id].taskId == "" then
      s.(jobs := Settled(s.jobs, id, Canceled, "Canceled before the turn registered a task id.", at))
    else s
  }

  function Apply(s: Sys, a: Action): Sys
    requires Enabled(s, a)
  {
    match a
    case Spawn(id, session, batch) =>
      s.(jobs := Inserted(s.jobs, id, session, batch, false),
         pool := s.pool.(fires := s.pool.fires[id := Queued]))
    case SpawnWork(id, session, batch) =>
      s.(jobs := Inserted(s.jobs, id, session, batch, true),
         pool := s.pool.(work := s.pool.work[id := WorkTask(Queued, false)],
                         workTasks := s.pool.workTasks + {id}))
    case Acquire(id) =>
      var p := s.pool.(free := s.pool.free - 1);
      s.(pool := if id in p.fires && p.fires[id].Queued? then p.(fires := p.fires[id := Holding])
                 else p.(work := p.work[id := p.work[id].(phase := Holding)]))
    case FireReturns(id) =>
      s.(pool := s.pool.(free := s.pool.free + 1, fires := s.pool.fires[id := TaskPhase.Ended]))
    case FireFails(id, error, at) =>
      s.(jobs := Settled(s.jobs, id, Failed, "Background turn delivery error: " + error, at),
         pool := s.pool.(free := s.pool.free + 1, fires := s.pool.fires[id := TaskPhase.Ended]))
    case TurnAnnounces(id, taskId) =>
      s.(jobs := Announced(s.jobs, id, taskId))
    case HookSettles(id, status, text, at, deliver) =>
      var jobs := Settled(s.jobs, id, status, text, at);
      s.(jobs := jobs, join := Scheduled(jobs, s.join, id, deliver))
    case WorkReturns(id, status, text, at, deliver) =>
      var jobs := Settled(s.jobs, id, status, text, at);
      var p := s.pool.(free := s.pool.free + 1,
                       work := s.pool.work[id := s.pool.work[id].(phase := TaskPhase.Ended)]);
      if s.jobs[id].status.Running?
      then Sys(jobs, Scheduled(jobs, s.join, id, deliver), p.(events := p.events + multiset{id}))
      else s.(pool := p)
    case WorkUnwinds(id) =>
      s.(pool := s.pool.(
           free := if s.pool.work[id].phase.Holding? then s.pool.free + 1 else s.pool.free,
           work := s.pool.work[id := s.pool.work[id].(phase := TaskPhase.Ended)],
           unwound := if s.jobs[id].status.Running? then s.pool.unwound + {id} else s.pool.unwound))
    case WorkForgotten(id) => s.(pool := s.pool.(workTasks := s.pool.workTasks - {id}))
    case Cancel(id, at) => CancelStep(s, id, at)
    case CancelLands(id, at) => s.(jobs := Settled(s.jobs, id, Canceled, "Canceled.", at))
    case Deliver(id, task) => s.(join := Resumed(s.jobs, s.join, id, task))
    case StragglerWakes(task) => s.(join := Woken(s.jobs, s.join, task))
    case StragglerEnds(task) => s.(join := StragglerOver(s.join, task))
    case StragglerForgotten(task) => s.(join := Forgotten(s.join, task))
    case DrainSession(session) => s.(jobs := Flagged(s.jobs, Pending(s.jobs, session)))
    case DismissJob(id) => s.(jobs := Dismissed(s.jobs, Dismissable(s.jobs, None) * {id}))
  }

  // ---- Runs ------------------------------------------------------------------------------------------

  /** Where a run of actions leads, or nothing if some action was not enabled when taken. */
  ghost function After(slots: nat, acts: seq<Action>): Option<Sys> {
    if acts == [] then Some(Init(slots)) else
    var before := After(slots, acts[..|acts| - 1]);
    if before.Some? && Enabled(before.value, acts[|acts| - 1])
    then Some(Apply(before.value, acts[|acts| - 1])) else None
  }
}
