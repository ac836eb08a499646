/** What every action of the background manager keeps. */
module BatchJoinInvariant {
  import opened Wrappers
  import opened JobTable
  import ExactlyOnce
  import opened Sets
  import opened BatchJoin

  // ---- Invariant of the join -----------------------------------------------------------------

  function BatchNudges(nudges: seq<Nudge>, batch: string): nat {
    if nudges == [] then 0 else
    BatchNudges(nudges[..|nudges| - 1], batch)
    + (var n := nudges[|nudges| - 1]; if n.Batch? && n.batch == batch then 1 else 0)
  }

  /** The tallies a nudge quotes are consistent, and a last-member nudge leaves none running. */
  ghost predicate HonestNudge(n: Nudge) {
    n.Batch? ==>
      && n.total >= 2
      && n.running + n.completed + n.failed + n.canceled == n.total
      && (n.cause.LastMember? ==> n.running == 0)
  }

  /** Some job of the batch has had its terminal delivery run. */
  ghost predicate MemberCalled(jobs: Table, j: Join, batch: string) {
    exists id :: id in j.called && id in jobs && jobs[id].batch == Some(batch)
  }

  ghost predicate Armed(j: Join, batch: string) {
    batch in j.timeouts && j.timeouts[batch] in j.stragglers
    && j.stragglers[j.timeouts[batch]] .phase.Sleeping? && j.stragglers[j.timeouts[batch]].batch == batch
  }

  /** A delivered job got its own nudge, or its batch joined, or a straggler will join it. */
  ghost predicate Accounted(jobs: Table, j: Join, id: JobId) {
    id in jobs &&
    (Single(id) in j.nudges
     || (jobs[id].batch.Some? && (jobs[id].batch.value in j.joined || Armed(j, jobs[id].batch.value))))
  }

  ghost predicate JoinInv(jobs: Table, j: Join) {
    && NudgesInv(j)
    && MapsInv(jobs, j)
    && StragglersInv(jobs, j)
    && AllAccounted(jobs, j)
  }

  /** One batch nudge for each joined batch, none for any other, and all of them honest. */
  ghost predicate NudgesInv(j: Join) {
    && (forall b :: BatchNudges(j.nudges, b) == if b in j.joined then 1 else 0)
    && (forall n :: n in j.nudges ==> HonestNudge(n))
  }

  ghost predicate MapsInv(jobs: Table, j: Join) {
    && (forall b :: b in j.joined ==> |Members(jobs, b)| >= 2 && MemberCalled(jobs, j, b))
    && (forall b :: b in j.timeouts ==>
          j.timeouts[b] in j.stragglers && j.stragglers[j.timeouts[b]].batch == b)
    && (forall id :: id in j.calls ==> id in jobs && !jobs[id].status.Running?)
  }

  ghost predicate StragglersInv(jobs: Table, j: Join) {
    forall t :: t in j.stragglers ==> StragglerInv(jobs, j, t)
  }

  ghost predicate AllAccounted(jobs: Table, j: Join) {
    forall id :: id in j.called ==> Accounted(jobs, j, id)
  }

  /** A sleeping straggler is the armed timeout of a batch that has not joined; in every
      other phase its batch has joined.  A task asked to cancel is out of the map. */
  ghost predicate StragglerInv(jobs: Table, j: Join, t: TaskId)
    requires t in j.stragglers
  {
    var task := j.stragglers[t];
    && |Members(jobs, task.batch)| >= 2
    && MemberCalled(jobs, j, task.batch)
    && (task.phase.Sleeping? ==> task.batch !in j.joined && task.batch in j.timeouts && j.timeouts[task.batch] == t)
    && (!task.phase.Sleeping? ==> task.batch in j.joined)
  }

  // ---- Invariant of the task pool ---------------------------------------------------------------

  function Holders(p: Pool): set<JobId> {
    (set id | id in p.fires && p.fires[id].Holding?) + (set id | id in p.work && p.work[id].phase.Holding?)
  }

  ghost predicate WorkInv(jobs: Table, p: Pool, id: JobId)
    requires id in p.work
  {
    && id in jobs
    && id !in p.fires
    && jobs[id].taskId == ""
    && (!p.work[id].phase.Ended? ==> id in p.workTasks && id !in p.unwound)
    && (p.work[id].cancelRequested ==> !jobs[id].status.Running?)
    && (p.work[id].phase.Ended? && jobs[id].status.Running? ==> id in p.unwound)
    && p.events[id] <= 1
    && (p.events[id] == 1 ==> !jobs[id].status.Running?)
    && (id !in p.unwound && !jobs[id].status.Running? ==> p.events[id] == 1)
  }

  ghost predicate PoolInv(jobs: Table, p: Pool) {
    && p.free >= 0
    && p.fires.Keys <= jobs.Keys
    && p.workTasks <= p.work.Keys
    && p.unwound <= p.work.Keys
    && (forall id :: id in p.events ==> id in p.work)
    && (forall id :: id in p.work ==> WorkInv(jobs, p, id))
  }

  ghost predicate Inv(s: Sys) {
    JoinInv(s.jobs, s.join) && PoolInv(s.jobs, s.pool)
  }

  // ---- Every action keeps the join invariant -----------------------------------------------------

  lemma MembersGrow(jobs: Table, jobs': Table, batch: string)
    requires ExactlyOnce.Later(jobs, jobs')
    ensures |Members(jobs, batch)| <= |Members(jobs', batch)|
  {
    SubsetIsNoLarger(Members(jobs, batch), Members(jobs', batch));
  }

  /** Writes to the table, and newly scheduled deliveries of settled rows, keep the join. */
  lemma TableWritesKeepJoin(jobs: Table, jobs': Table, j: Join, calls: multiset<JobId>)
    requires JoinInv(jobs, j) && ExactlyOnce.Later(jobs, jobs')
    requires forall id :: id in calls ==> id in j.calls || (id in jobs' && !jobs'[id].status.Running?)
    ensures JoinInv(jobs', j.(calls := calls))
  {
    forall b ensures |Members(jobs, b)| <= |Members(jobs', b)| { MembersGrow(jobs, jobs', b); }
    var j' := j.(calls := calls);
    forall b | MemberCalled(jobs, j, b) ensures MemberCalled(jobs', j', b) {
      var id :| id in j.called && id in jobs && jobs[id].batch == Some(b);
      assert id in j'.called && id in jobs' && jobs'[id].batch == Some(b);
    }
    forall t | t in j.stragglers ensures StragglerInv(jobs', j', t) {
      assert StragglerInv(jobs, j, t);
    }
    forall id | id in j'.called ensures Accounted(jobs', j', id) {
      assert Accounted(jobs, j, id);
    }
  }

  lemma BatchNudgesSnoc(nudges: seq<Nudge>, n: Nudge, batch: string)
    ensures BatchNudges(nudges + [n], batch)
            == BatchNudges(nudges, batch) + if n.Batch? && n.batch == batch then 1 else 0
  {
  }

  /** The parts of the join invariant that read only the fields a step leaves alone. */
  lemma CallsSurvive(jobs: Table, j: Join, j': Join)
    requires j.called <= j'.called
    ensures forall b :: MemberCalled(jobs, j, b) ==> MemberCalled(jobs, j', b)
  {
  }

  /** Taking a delivery off the queue and sending its job a nudge of its own. */
  lemma SingleKeepsJoin(jobs: Table, j: Join, id: JobId)
    requires JoinInv(jobs, j) && id in j.calls
    ensures var j' := Taken(j, id).(nudges := j.nudges + [Single(id)]);
            JoinInv(jobs, j')
  {
    var j' := Taken(j, id).(nudges := j.nudges + [Single(id)]);
    CallsSurvive(jobs, j, j');
    forall b { BatchNudgesSnoc(j.nudges, Single(id), b); }
    forall t | t in j'.stragglers ensures StragglerInv(jobs, j', t) { assert StragglerInv(jobs, j, t); }
    forall m | m in j'.called ensures Accounted(jobs, j', m) {
      if m != id { assert Accounted(jobs, j, m); }
    }
  }

  /** A delivery that finds its batch joined already changes nothing else. */
  lemma DuplicateKeepsJoin(jobs: Table, j: Join, id: JobId)
    requires JoinInv(jobs, j) && id in j.calls
    requires jobs[id].batch.Some? && jobs[id].batch.value in j.joined
    ensures JoinInv(jobs, Taken(j, id))
  {
  }

  lemma HoldingKeepsStragglers(jobs: Table, j: Join, id: JobId, task: TaskId)
    requires JoinInv(jobs, j) && id in j.calls && task !in j.stragglers
    requires jobs[id].batch.Some? && |Members(jobs, jobs[id].batch.value)| >= 2
    ensures StragglersInv(jobs, TimeoutEnsured(Taken(j, id), jobs[id].batch.value, jobs[id].session, task))
  {
    var b := jobs[id].batch.value;
    var j' := TimeoutEnsured(Taken(j, id), b, jobs[id].session, task);
    CallsSurvive(jobs, j, j');
    assert id in j'.called;
    assert MemberCalled(jobs, j', b);
    forall t | t in j'.stragglers ensures StragglerInv(jobs, j', t) {
      if t in j.stragglers { assert StragglerInv(jobs, j, t); }
    }
  }

  lemma HoldingKeepsAccounts(jobs: Table, j: Join, id: JobId, task: TaskId)
    requires JoinInv(jobs, j) && id in j.calls && task !in j.stragglers && jobs[id].batch.Some?
    ensures AllAccounted(jobs, TimeoutEnsured(Taken(j, id), jobs[id].batch.value, jobs[id].session, task))
  {
    var b := jobs[id].batch.value;
    var j' := TimeoutEnsured(Taken(j, id), b, jobs[id].session, task);
    if b in j.timeouts { assert StragglerInv(jobs, j, j.timeouts[b]); }
    forall m | m in j'.called ensures Accounted(jobs, j', m) {
      if m != id { assert Accounted(jobs, j, m); }
    }
  }

  lemma HoldingKeepsMaps(jobs: Table, j: Join, id: JobId, task: TaskId)
    requires MapsInv(jobs, j) && id in j.calls && task !in j.stragglers && jobs[id].batch.Some?
    ensures MapsInv(jobs, TimeoutEnsured(Taken(j, id), jobs[id].batch.value, jobs[id].session, task))
  {
    CallsSurvive(jobs, j, TimeoutEnsured(Taken(j, id), jobs[id].batch.value, jobs[id].session, task));
  }

  /** A held delivery leaves its batch joined or a straggler armed for it. */
  lemma HoldingKeepsJoin(jobs: Table, j: Join, id: JobId, task: TaskId)
    requires JoinInv(jobs, j) && id in j.calls && task !in j.stragglers
    requires jobs[id].batch.Some? && |Members(jobs, jobs[id].batch.value)| >= 2
    ensures JoinInv(jobs, TimeoutEnsured(Taken(j, id), jobs[id].batch.value, jobs[id].session, task))
  {
    HoldingKeepsMaps(jobs, j, id, task);
    HoldingKeepsStragglers(jobs, j, id, task);
    HoldingKeepsAccounts(jobs, j, id, task);
  }

  function LastMemberJoin(jobs: Table, j: Join, id: JobId): Join
    requires id in jobs && jobs[id].batch.Some?
  {
    var b := jobs[id].batch.value;
    var claimed := TimeoutCancelled(Taken(j, id).(joined := j.joined + {b}), b);
    claimed.(nudges := claimed.nudges + [BatchNudge(jobs, b, jobs[id].session, LastMember)])
  }

  lemma LastMemberKeepsStragglers(jobs: Table, j: Join, id: JobId)
    requires MapsInv(jobs, j) && StragglersInv(jobs, j)
    requires id in jobs && jobs[id].batch.Some? && jobs[id].batch.value !in j.joined
    ensures StragglersInv(jobs, LastMemberJoin(jobs, j, id))
  {
    var b := jobs[id].batch.value;
    var j' := LastMemberJoin(jobs, j, id);
    CallsSurvive(jobs, j, j');
    forall t | t in j'.stragglers ensures StragglerInv(jobs, j', t) {
      assert StragglerInv(jobs, j, t);
    }
  }

  lemma LastMemberKeepsAccounts(jobs: Table, j: Join, id: JobId)
    requires MapsInv(jobs, j) && AllAccounted(jobs, j)
    requires id in jobs && jobs[id].batch.Some? && jobs[id].batch.value !in j.joined
    ensures AllAccounted(jobs, LastMemberJoin(jobs, j, id))
  {
    var j' := LastMemberJoin(jobs, j, id);
    forall m | m in j'.called ensures Accounted(jobs, j', m) {
      if m != id { assert Accounted(jobs, j, m); }
    }
  }

  lemma BatchNudgeIsHonest(jobs: Table, batch: string, session: string, cause: Cause)
    requires |Members(jobs, batch)| >= 2
    requires cause.LastMember? ==> |InStatus(jobs, batch, Running)| == 0
    ensures HonestNudge(BatchNudge(jobs, batch, session, cause))
  {
    TalliesSumToSize(jobs, batch);
  }

  /** Claiming a batch and nudging about it, together. */
  lemma ClaimKeepsNudges(j: Join, j': Join, batch: string, n: Nudge)
    requires NudgesInv(j) && batch !in j.joined
    requires n.Batch? && n.batch == batch && HonestNudge(n)
    requires j'.joined == j.joined + {batch} && j'.nudges == j.nudges + [n]
    ensures NudgesInv(j')
  {
    forall c { BatchNudgesSnoc(j.nudges, n, c); }
  }

  lemma LastMemberKeepsNudges(jobs: Table, j: Join, id: JobId)
    requires NudgesInv(j) && id in jobs && jobs[id].batch.Some? && jobs[id].batch.value !in j.joined
    requires |Members(jobs, jobs[id].batch.value)| >= 2
    requires |InStatus(jobs, jobs[id].batch.value, Running)| == 0
    ensures NudgesInv(LastMemberJoin(jobs, j, id))
  {
    var b := jobs[id].batch.value;
    BatchNudgeIsHonest(jobs, b, jobs[id].session, LastMember);
    ClaimKeepsNudges(j, LastMemberJoin(jobs, j, id), b, BatchNudge(jobs, b, jobs[id].session, LastMember));
  }

  lemma LastMemberKeepsMaps(jobs: Table, j: Join, id: JobId)
    requires MapsInv(jobs, j) && id in j.calls && id in jobs && jobs[id].batch.Some?
    requires |Members(jobs, jobs[id].batch.value)| >= 2
    ensures MapsInv(jobs, LastMemberJoin(jobs, j, id))
  {
  }

  /** The last member claims the batch, disarms its straggler and nudges. */
  lemma LastMemberKeepsJoin(jobs: Table, j: Join, id: JobId)
    requires JoinInv(jobs, j) && id in j.calls
    requires jobs[id].batch.Some? && jobs[id].batch.value !in j.joined
    requires |Members(jobs, jobs[id].batch.value)| >= 2
    requires |InStatus(jobs, jobs[id].batch.value, Running)| == 0
    ensures JoinInv(jobs, LastMemberJoin(jobs, j, id))
  {
    LastMemberKeepsMaps(jobs, j, id);
    LastMemberKeepsNudges(jobs, j, id);
    LastMemberKeepsStragglers(jobs, j, id);
    LastMemberKeepsAccounts(jobs, j, id);
  }

  lemma DeliveryKeepsJoin(jobs: Table, j: Join, id: JobId, task: TaskId)
    requires JoinInv(jobs, j) && id in j.calls && id in jobs && task !in j.stragglers
    ensures JoinInv(jobs, Resumed(jobs, j, id, task))
  {
    var batch := jobs[id].batch;
    if batch.None? || |Members(jobs, batch.value)| <= 1 {
      SingleKeepsJoin(jobs, j, id);
    } else if |InStatus(jobs, batch.value, Running)| > 0 {
      HoldingKeepsJoin(jobs, j, id, task);
    } else if batch.value in j.joined {
      DuplicateKeepsJoin(jobs, j, id);
    } else {
      LastMemberKeepsJoin(jobs, j, id);
    }
  }

  lemma WakingKeepsNudges(jobs: Table, j: Join, task: TaskId)
    requires JoinInv(jobs, j) && task in j.stragglers && j.stragglers[task].phase.Sleeping?
    ensures NudgesInv(Woken(jobs, j, task))
  {
    var t := j.stragglers[task];
    assert StragglerInv(jobs, j, task);
    BatchNudgeIsHonest(jobs, t.batch, t.session, StragglerTimeout);
    ClaimKeepsNudges(j, Woken(jobs, j, task), t.batch, BatchNudge(jobs, t.batch, t.session, StragglerTimeout));
  }

  lemma WakingKeepsStragglers(jobs: Table, j: Join, task: TaskId)
    requires JoinInv(jobs, j) && task in j.stragglers && j.stragglers[task].phase.Sleeping?
    ensures StragglersInv(jobs, Woken(jobs, j, task)) && MapsInv(jobs, Woken(jobs, j, task))
  {
    var j' := Woken(jobs, j, task);
    CallsSurvive(jobs, j, j');
    assert StragglerInv(jobs, j, task);
    forall t | t in j'.stragglers ensures StragglerInv(jobs, j', t) { assert StragglerInv(jobs, j, t); }
  }

  lemma WakingKeepsAccounts(jobs: Table, j: Join, task: TaskId)
    requires JoinInv(jobs, j) && task in j.stragglers && j.stragglers[task].phase.Sleeping?
    ensures AllAccounted(jobs, Woken(jobs, j, task))
  {
  }

  lemma WakingKeepsJoin(jobs: Table, j: Join, task: TaskId)
    requires JoinInv(jobs, j) && task in j.stragglers && j.stragglers[task].phase.Sleeping?
    ensures JoinInv(jobs, Woken(jobs, j, task))
  {
    WakingKeepsNudges(jobs, j, task);
    WakingKeepsStragglers(jobs, j, task);
    WakingKeepsAccounts(jobs, j, task);
  }

  lemma EndingKeepsJoin(jobs: Table, j: Join, task: TaskId)
    requires JoinInv(jobs, j) && task in j.stragglers && !j.stragglers[task].phase.Sleeping?
    ensures JoinInv(jobs, StragglerOver(j, task))
  {
    var j' := StragglerOver(j, task);
    CallsSurvive(jobs, j, j');
    assert StragglerInv(jobs, j, task);
    forall t | t in j'.stragglers ensures StragglerInv(jobs, j', t) { assert StragglerInv(jobs, j, t); }
    forall m | m in j'.called ensures Accounted(jobs, j', m) { assert Accounted(jobs, j, m); }
  }

  /** The done-callback never drops a sleeping straggler's entry: its batch has joined. */
  lemma ForgettingKeepsJoin(jobs: Table, j: Join, task: TaskId)
    requires JoinInv(jobs, j) && task in j.stragglers && !j.stragglers[task].phase.Sleeping?
    ensures JoinInv(jobs, Forgotten(j, task))
  {
    var j' := Forgotten(j, task);
    CallsSurvive(jobs, j, j');
    assert StragglerInv(jobs, j, task);
    forall t | t in j'.stragglers ensures StragglerInv(jobs, j', t) { assert StragglerInv(jobs, j, t); }
    forall m | m in j'.called ensures Accounted(jobs, j', m) { assert Accounted(jobs, j, m); }
  }

  /** The one table operation an action performs, if it performs any. */
  function TableOp(s: Sys, a: Action): Option<ExactlyOnce.Op> {
    match a
    case Spawn(id, session, batch) => Some(ExactlyOnce.Create(id, session, batch, false))
    case SpawnWork(id, session, batch) => Some(ExactlyOnce.Create(id, session, batch, true))
    case FireFails(id, error, at) =>
      Some(ExactlyOnce.Mark(id, Failed, "Background turn delivery error: " + error, at))
    case TurnAnnounces(id, taskId) => Some(ExactlyOnce.Announce(id, taskId))
    case HookSettles(id, status, text, at, _) => Some(ExactlyOnce.Mark(id, status, text, at))
    case WorkReturns(id, status, text, at, _) => Some(ExactlyOnce.Mark(id, status, text, at))
    case Cancel(id, at) =>
      if id in s.pool.workTasks then Some(ExactlyOnce.Mark(id, Canceled, "Canceled.", at))
      else if id in s.jobs && s.jobs[id].taskId == "" then
        Some(ExactlyOnce.Mark(id, Canceled, "Canceled before the turn registered a task id.", at))
      else None
    case CancelLands(id, at) => Some(ExactlyOnce.Mark(id, Canceled, "Canceled.", at))
    case DrainSession(session) => Some(ExactlyOnce.Drain(session))
    case DismissJob(id) => Some(ExactlyOnce.Dismiss(id))
    case _ => None
  }

  lemma TableOpIsTheWrite(s: Sys, a: Action)
    requires Enabled(s, a)
    ensures var op := TableOp(s, a);
            Apply(s, a).jobs == if op.None? then s.jobs else ExactlyOnce.Apply(s.jobs, op.value)
  {
  }

  /** Every action only moves the job table forward. */
  lemma JobsMoveForward(s: Sys, a: Action)
    requires Enabled(s, a)
    ensures ExactlyOnce.Later(s.jobs, Apply(s, a).jobs)
  {
    var op := TableOp(s, a);
    if op.Some? { ExactlyOnce.ApplyIsLater(s.jobs, op.value); }
    TableOpIsTheWrite(s, a);
  }

  predicate TouchesJoin(a: Action) {
    a.Deliver? || a.StragglerWakes? || a.StragglerEnds? || a.StragglerForgotten?
  }

  lemma JoinActionsTouchNoPool(s: Sys, a: Action)
    requires Enabled(s, a) && TouchesJoin(a)
    ensures Apply(s, a).jobs == s.jobs && Apply(s, a).pool == s.pool
  {
  }

  /** Every other action leaves the join alone but for deliveries of settled rows it schedules. */
  lemma OtherActionsOnlySchedule(s: Sys, a: Action)
    requires Enabled(s, a) && !TouchesJoin(a)
    ensures var s' := Apply(s, a);
            && s'.join == s.join.(calls := s'.join.calls)
            && forall id :: id in s'.join.calls ==>
                 id in s.join.calls || (id in s'.jobs && !s'.jobs[id].status.Running?)
  {
  }

  lemma OtherActionsKeepJoin(s: Sys, s': Sys)
    requires JoinInv(s.jobs, s.join) && ExactlyOnce.Later(s.jobs, s'.jobs)
    requires s'.join == s.join.(calls := s'.join.calls)
    requires forall id :: id in s'.join.calls ==>
               id in s.join.calls || (id in s'.jobs && !s'.jobs[id].status.Running?)
    ensures JoinInv(s'.jobs, s'.join)
  {
    TableWritesKeepJoin(s.jobs, s'.jobs, s.join, s'.join.calls);
  }

  lemma JoinActionsKeepJoin(s: Sys, a: Action)
    requires JoinInv(s.jobs, s.join) && Enabled(s, a) && TouchesJoin(a)
    ensures JoinInv(s.jobs, Apply(s, a).join)
  {
    match a
    case Deliver(id, task) => DeliveryKeepsJoin(s.jobs, s.join, id, task);
    case StragglerWakes(task) => WakingKeepsJoin(s.jobs, s.join, task);
    case StragglerEnds(task) => EndingKeepsJoin(s.jobs, s.join, task);
    case StragglerForgotten(task) => ForgettingKeepsJoin(s.jobs, s.join, task);
  }

  lemma ActionKeepsJoin(s: Sys, a: Action)
    requires Inv(s) && Enabled(s, a)
    ensures JoinInv(Apply(s, a).jobs, Apply(s, a).join)
  {
    if TouchesJoin(a) {
      JoinActionsTouchNoPool(s, a);
      JoinActionsKeepJoin(s, a);
    } else {
      OtherActionsOnlySchedule(s, a);
      JobsMoveForward(s, a);
      OtherActionsKeepJoin(s, Apply(s, a));
    }
  }

  // ---- Every action keeps the pool invariant -----------------------------------------------------

  /** The rows of the work jobs are as they were, as far as a work job's invariant reads them. */
  ghost predicate WorkRowsUntouched(jobs: Table, jobs': Table, p: Pool) {
    && jobs.Keys <= jobs'.Keys
    && forall id :: id in p.work && id in jobs ==>
         jobs'[id].status == jobs[id].status && jobs'[id].taskId == jobs[id].taskId
  }

  /** A step that leaves alone the rows and the tasks of work jobs keeps what is known of them. */
  lemma OtherRowsKeepWork(jobs: Table, jobs': Table, p: Pool, fires: map<JobId, TaskPhase>, free: nat)
    requires PoolInv(jobs, p) && WorkRowsUntouched(jobs, jobs', p) && fires.Keys == p.fires.Keys
    ensures PoolInv(jobs', p.(fires := fires, free := free))
  {
    forall id | id in p.work ensures WorkInv(jobs', p.(fires := fires, free := free), id) {
      assert WorkInv(jobs, p, id);
    }
  }

  lemma SpawnKeepsPool(s: Sys, a: Action)
    requires Inv(s) && Enabled(s, a) && (a.Spawn? || a.SpawnWork?)
    ensures PoolInv(Apply(s, a).jobs, Apply(s, a).pool)
  {
  }

  lemma WorkStepKeepsPool(s: Sys, a: Action)
    requires Inv(s) && Enabled(s, a) && (a.WorkReturns? || a.WorkUnwinds? || a.WorkForgotten?)
    ensures PoolInv(Apply(s, a).jobs, Apply(s, a).pool)
  {
    var s' := Apply(s, a);
    assert WorkInv(s.jobs, s.pool, a.id);
    forall id | id in s'.pool.work ensures WorkInv(s'.jobs, s'.pool, id) {
      assert WorkInv(s.jobs, s.pool, id);
    }
  }

  lemma CancelWorkKeepsPool(s: Sys, id: JobId, at: int)
    requires Inv(s) && id in s.jobs && s.jobs[id].status.Running? && id in s.pool.workTasks
    ensures PoolInv(CancelStep(s, id, at).jobs, CancelStep(s, id, at).pool)
  {
    var s' := CancelStep(s, id, at);
    assert WorkInv(s.jobs, s.pool, id);
    forall m | m in s'.pool.work ensures WorkInv(s'.jobs, s'.pool, m) {
      assert WorkInv(s.jobs, s.pool, m);
    }
  }

  lemma CancelRowKeepsPool(s: Sys, id: JobId, at: int)
    requires Inv(s) && id in s.jobs && s.jobs[id].status.Running? && id !in s.pool.workTasks
    ensures PoolInv(CancelStep(s, id, at).jobs, CancelStep(s, id, at).pool)
  {
    var s' := CancelStep(s, id, at);
    forall m | m in s'.pool.work ensures WorkInv(s'.jobs, s'.pool, m) {
      assert WorkInv(s.jobs, s.pool, m);
    }
  }

  lemma CancelKeepsPool(s: Sys, id: JobId, at: int)
    requires Inv(s)
    ensures PoolInv(CancelStep(s, id, at).jobs, CancelStep(s, id, at).pool)
  {
    if id in s.jobs && s.jobs[id].status.Running? {
      if id in s.pool.workTasks { CancelWorkKeepsPool(s, id, at); } else { CancelRowKeepsPool(s, id, at); }
    }
  }

  /** Actions that concern fire tasks, the join or the panel leave work rows as they were. */
  ghost predicate LeavesWorkAlone(a: Action) {
    !a.Spawn? && !a.SpawnWork? && !a.WorkReturns? && !a.WorkUnwinds? && !a.WorkForgotten? && !a.Cancel? && !a.Acquire?
  }

  /** Settling or announcing the row of a fire task is no write to the row of a work job. */
  lemma FireRowsAreNotWork(jobs: Table, p: Pool, id: JobId)
    requires PoolInv(jobs, p) && id in p.fires
    ensures id !in p.work
  {
  }

  lemma FireEndsKeepPool(s: Sys, a: Action)
    requires Inv(s) && Enabled(s, a) && (a.FireReturns? || a.FireFails?)
    ensures PoolInv(Apply(s, a).jobs, Apply(s, a).pool)
  {
    FireRowsAreNotWork(s.jobs, s.pool, a.id);
    OtherRowsKeepWork(s.jobs, Apply(s, a).jobs, s.pool, s.pool.fires[a.id := TaskPhase.Ended], s.pool.free + 1);
  }

  lemma FireWritesKeepPool(s: Sys, a: Action)
    requires Inv(s) && Enabled(s, a) && (a.TurnAnnounces? || a.HookSettles? || a.CancelLands?)
    ensures PoolInv(Apply(s, a).jobs, Apply(s, a).pool)
  {
    FireRowsAreNotWork(s.jobs, s.pool, a.id);
    OtherRowsKeepWork(s.jobs, Apply(s, a).jobs, s.pool, s.pool.fires, s.pool.free);
  }

  lemma FlagsKeepPool(s: Sys, a: Action)
    requires Inv(s) && Enabled(s, a) && (a.DrainSession? || a.DismissJob?)
    ensures PoolInv(Apply(s, a).jobs, Apply(s, a).pool)
  {
    OtherRowsKeepWork(s.jobs, Apply(s, a).jobs, s.pool, s.pool.fires, s.pool.free);
  }

  lemma OtherActionsKeepPool(s: Sys, a: Action)
    requires Inv(s) && Enabled(s, a) && LeavesWorkAlone(a)
    ensures PoolInv(Apply(s, a).jobs, Apply(s, a).pool)
  {
    match a
    case FireReturns(_) => FireEndsKeepPool(s, a);
    case FireFails(_, _, _) => FireEndsKeepPool(s, a);
    case TurnAnnounces(_, _) => FireWritesKeepPool(s, a);
    case HookSettles(_, _, _, _, _) => FireWritesKeepPool(s, a);
    case CancelLands(_, _) => FireWritesKeepPool(s, a);
    case DrainSession(_) => FlagsKeepPool(s, a);
    case DismissJob(_) => FlagsKeepPool(s, a);
    case _ => JoinActionsTouchNoPool(s, a);
  }

  lemma AcquireKeepsPool(s: Sys, id: JobId)
    requires Inv(s) && Enabled(s, Acquire(id))
    ensures PoolInv(s.jobs, Apply(s, Acquire(id)).pool)
  {
  }

  lemma ActionKeepsPool(s: Sys, a: Action)
    requires Inv(s) && Enabled(s, a)
    ensures PoolInv(Apply(s, a).jobs, Apply(s, a).pool)
  {
    match a
    case Spawn(_, _, _) => SpawnKeepsPool(s, a);
    case SpawnWork(_, _, _) => SpawnKeepsPool(s, a);
    case WorkReturns(_, _, _, _, _) => WorkStepKeepsPool(s, a);
    case WorkUnwinds(_) => WorkStepKeepsPool(s, a);
    case WorkForgotten(_) => WorkStepKeepsPool(s, a);
    case Cancel(id, at) => CancelKeepsPool(s, id, at);
    case Acquire(id) => AcquireKeepsPool(s, id);
    case _ => OtherActionsKeepPool(s, a);
  }

  lemma AcquireKeepsSlots(s: Sys, id: JobId)
    requires PoolInv(s.jobs, s.pool) && Enabled(s, Acquire(id))
    ensures Holders(Apply(s, Acquire(id)).pool) == Holders(s.pool) + {id}
    ensures id !in Holders(s.pool)
  {
  }

  lemma FireEndsKeepsSlots(s: Sys, a: Action)
    requires PoolInv(s.jobs, s.pool) && Enabled(s, a) && (a.FireReturns? || a.FireFails?)
    ensures Holders(Apply(s, a).pool) == Holders(s.pool) - {a.id}
    ensures a.id in Holders(s.pool)
  {
  }

  lemma WorkEndsKeepsSlots(s: Sys, a: Action)
    requires PoolInv(s.jobs, s.pool) && Enabled(s, a) && (a.WorkReturns? || a.WorkUnwinds?)
    ensures Holders(Apply(s, a).pool) == Holders(s.pool) - {a.id}
    ensures a.id in Holders(s.pool) <==> s.pool.work[a.id].phase.Holding?
  {
  }

  lemma SpawnKeepsSlots(s: Sys, a: Action)
    requires PoolInv(s.jobs, s.pool) && Enabled(s, a) && (a.Spawn? || a.SpawnWork?)
    ensures Holders(Apply(s, a).pool) == Holders(s.pool)
  {
  }

  lemma OtherActionsKeepSlots(s: Sys, a: Action)
    requires Enabled(s, a) && (a.Cancel? || LeavesWorkAlone(a) || a.WorkForgotten?)
    requires !a.FireReturns? && !a.FireFails?
    ensures Holders(Apply(s, a).pool) == Holders(s.pool) && Apply(s, a).pool.free == s.pool.free
  {
  }

  /** The semaphore's value and the slots held always add up to the same number. */
  lemma ActionKeepsSlots(s: Sys, a: Action)
    requires Inv(s) && Enabled(s, a)
    ensures Apply(s, a).pool.free + |Holders(Apply(s, a).pool)| == s.pool.free + |Holders(s.pool)|
  {
    if a.Acquire? {
      AcquireKeepsSlots(s, a.id);
    } else if a.FireReturns? || a.FireFails? {
      FireEndsKeepsSlots(s, a);
    } else if a.WorkReturns? || a.WorkUnwinds? {
      WorkEndsKeepsSlots(s, a);
    } else if a.Spawn? || a.SpawnWork? {
      SpawnKeepsSlots(s, a);
    } else {
      OtherActionsKeepSlots(s, a);
    }
  }

  // ---- Runs ------------------------------------------------------------------------------------------

  lemma {:induction false} RunKeepsInv(slots: nat, acts: seq<Action>)
    requires After(slots, acts).Some?
    ensures var s := After(slots, acts).value;
            Inv(s) && s.pool.free + |Holders(s.pool)| == slots
  {
    if acts == [] {
      assert Holders(Init(slots).pool) == {};
    } else {
      RunKeepsInv(slots, acts[..|acts| - 1]);
      var s := After(slots, acts[..|acts| - 1]).value;
      ActionKeepsJoin(s, acts[|acts| - 1]);
      ActionKeepsPool(s, acts[|acts| - 1]);
      ActionKeepsSlots(s, acts[|acts| - 1]);
    }
  }
}
