/** What each nudge says, what makes it go out, and what settles a row. */
module NudgeTheorems {
  import opened Wrappers
  import opened JobTable
  import ExactlyOnce
  import opened BatchJoin
  import opened BatchJoinInvariant
  import opened BatchJoinTheorems

  // ---- What a step sends ------------------------------------------------------------------

  /** Some job of the batch that has been delivered belongs to the session. */
  ghost predicate Origin(jobs: Table, j: Join, batch: string, session: string) {
    exists id :: id in j.called && id in jobs && jobs[id].batch == Some(batch) && jobs[id].session == session
  }

  /** Every straggler nudges the session of a delivered job of its batch. */
  ghost predicate OriginsInv(s: Sys) {
    forall t :: t in s.join.stragglers ==>
      Origin(s.jobs, s.join, s.join.stragglers[t].batch, s.join.stragglers[t].session)
  }

  /** The nudge's tallies are the table's, each under its own name. */
  ghost predicate Quotes(n: Nudge, jobs: Table)
    requires n.Batch?
  {
    && n.total == |Members(jobs, n.batch)|
    && n.running == |InStatus(jobs, n.batch, Running)|
    && n.completed == |InStatus(jobs, n.batch, Completed)|
    && n.failed == |InStatus(jobs, n.batch, Failed)|
    && n.canceled == |InStatus(jobs, n.batch, Canceled)|
  }

  lemma DeliverySends(jobs: Table, j: Join, id: JobId, task: TaskId, k: nat)
    requires id in jobs && |j.nudges| <= k < |Resumed(jobs, j, id, task).nudges|
    ensures var j', batch := Resumed(jobs, j, id, task), jobs[id].batch;
            && k == |j.nudges| && id in j'.called
            && match j'.nudges[k]
               case Single(of) => of == id && (batch.None? || |Members(jobs, batch.value)| <= 1)
               case Batch(of, session, cause, _, _, _, _, _) =>
                 && batch == Some(of) && session == jobs[id].session && cause.LastMember?
                 && |Members(jobs, of)| >= 2 && of !in j.joined && Quotes(j'.nudges[k], jobs)
  {
  }

  lemma WakingSends(jobs: Table, j: Join, task: TaskId, k: nat)
    requires task in j.stragglers && |j.nudges| <= k < |Woken(jobs, j, task).nudges|
    ensures var n, t := Woken(jobs, j, task).nudges[k], j.stragglers[task];
            && k == |j.nudges| && n.Batch? && n.cause.StragglerTimeout?
            && n.batch == t.batch && n.session == t.session && t.batch !in j.joined && Quotes(n, jobs)
  {
  }

  /** A delivery nudges about its job alone if the job is in no batch or alone in it; else it is the
      last of a batch that has not joined, and nudges about the batch.  A waking straggler nudges
      about its own batch.  Nothing else sends anything, and nothing sends two. */
  lemma StepSends(s: Sys, a: Action, k: nat)
    requires Enabled(s, a) && |s.join.nudges| <= k < |Apply(s, a).join.nudges|
    ensures k == |s.join.nudges| && (a.Deliver? || a.StragglerWakes?)
    ensures match Apply(s, a).join.nudges[k]
            case Single(id) =>
              a.Deliver? && id == a.id && (s.jobs[id].batch.None? || |Members(s.jobs, s.jobs[id].batch.value)| <= 1)
            case Batch(batch, session, cause, _, _, _, _, _) =>
              && batch !in s.join.joined && Quotes(Apply(s, a).join.nudges[k], s.jobs)
              && (a.Deliver? ==> cause.LastMember? && s.jobs[a.id].batch == Some(batch)
                                 && s.jobs[a.id].session == session && a.id in Apply(s, a).join.called)
              && (a.StragglerWakes? ==> cause.StragglerTimeout? && s.join.stragglers[a.task].batch == batch
                                        && s.join.stragglers[a.task].session == session)
  {
    if a.Deliver? {
      DeliverySends(s.jobs, s.join, a.id, a.task, k);
    } else if a.StragglerWakes? {
      WakingSends(s.jobs, s.join, a.task, k);
    } else {
      OtherStepsSendNothing(s, a);
    }
  }

  lemma NudgesGrow(s: Sys, a: Action)
    requires Enabled(s, a)
    ensures s.join.nudges <= Apply(s, a).join.nudges && s.join.called <= Apply(s, a).join.called
    ensures |Apply(s, a).join.nudges| <= |s.join.nudges| + 1
  {
  }

  // ---- Whose session a straggler nudges ------------------------------------------------------

  lemma OriginStays(jobs: Table, jobs': Table, j: Join, j': Join, batch: string, session: string)
    requires Origin(jobs, j, batch, session) && ExactlyOnce.Later(jobs, jobs') && j.called <= j'.called
    ensures Origin(jobs', j', batch, session)
  {
    var id :| id in j.called && id in jobs && jobs[id].batch == Some(batch) && jobs[id].session == session;
    assert id in j'.called && id in jobs' && jobs'[id].batch == Some(batch) && jobs'[id].session == session;
  }

  lemma DeliveryArms(jobs: Table, j: Join, id: JobId, task: TaskId, t: TaskId)
    requires id in jobs && t in Resumed(jobs, j, id, task).stragglers
    ensures var j' := Resumed(jobs, j, id, task);
            && id in j'.called
            && ((t in j.stragglers && j.stragglers[t].batch == j'.stragglers[t].batch
                 && j.stragglers[t].session == j'.stragglers[t].session)
                || (jobs[id].batch == Some(j'.stragglers[t].batch) && jobs[id].session == j'.stragglers[t].session))
  {
  }

  /** A straggler found after a step was there before, for the same batch and session, or the step
      is the delivery of a job of both. */
  lemma StragglersComeFromDeliveries(s: Sys, a: Action, t: TaskId)
    requires Enabled(s, a) && t in Apply(s, a).join.stragglers
    ensures var now := Apply(s, a).join.stragglers[t];
            || (t in s.join.stragglers && s.join.stragglers[t].batch == now.batch
                && s.join.stragglers[t].session == now.session)
            || (a.Deliver? && a.id in Apply(s, a).join.called && s.jobs[a.id].batch == Some(now.batch)
                && s.jobs[a.id].session == now.session && Apply(s, a).jobs == s.jobs)
  {
    if TouchesJoin(a) { JoinActionsTouchNoPool(s, a); } else { OtherActionsOnlySchedule(s, a); }
    if a.Deliver? { DeliveryArms(s.jobs, s.join, a.id, a.task, t); }
  }


  lemma StepKeepsOrigins(s: Sys, a: Action)
    requires OriginsInv(s) && Enabled(s, a)
    ensures OriginsInv(Apply(s, a))
  {
    var s' := Apply(s, a);
    JobsMoveForward(s, a);
    NudgesGrow(s, a);
    forall t | t in s'.join.stragglers
      ensures Origin(s'.jobs, s'.join, s'.join.stragglers[t].batch, s'.join.stragglers[t].session)
    {
      StragglersComeFromDeliveries(s, a, t);
      var now := s'.join.stragglers[t];
      if t in s.join.stragglers && s.join.stragglers[t].batch == now.batch
         && s.join.stragglers[t].session == now.session {
        OriginStays(s.jobs, s'.jobs, s.join, s'.join, now.batch, now.session);
      }
    }
  }

  lemma {:induction false} RunKeepsOrigins(slots: nat, acts: seq<Action>)
    requires After(slots, acts).Some?
    ensures OriginsInv(After(slots, acts).value)
  {
    if acts != [] {
      RunKeepsOrigins(slots, acts[..|acts| - 1]);
      StepKeepsOrigins(After(slots, acts[..|acts| - 1]).value, acts[|acts| - 1]);
    }
  }

  // ---- Every nudge of a run ---------------------------------------------------------------------

  lemma SentToTheOrigin(s: Sys, a: Action, k: nat)
    requires OriginsInv(s) && Enabled(s, a) && |s.join.nudges| <= k < |Apply(s, a).join.nudges|
    ensures var n := Apply(s, a).join.nudges[k]; n.Batch? ==> Origin(s.jobs, Apply(s, a).join, n.batch, n.session)
  {
    StepSends(s, a, k);
    NudgesGrow(s, a);
    var n := Apply(s, a).join.nudges[k];
    if n.Batch? && a.StragglerWakes? {
      OriginStays(s.jobs, s.jobs, s.join, Apply(s, a).join, n.batch, n.session);
    }
  }

  /** The action that sent a nudge of a run. */
  lemma {:induction false} WhenItWasSent(slots: nat, acts: seq<Action>, k: nat) returns (i: nat)
    requires After(slots, acts).Some? && k < |After(slots, acts).value.join.nudges|
    ensures i < |acts| && After(slots, acts[..i]).Some? && After(slots, acts[..i + 1]).Some?
    ensures |After(slots, acts[..i]).value.join.nudges| <= k < |After(slots, acts[..i + 1]).value.join.nudges|
    ensures After(slots, acts[..i + 1]).value.join.nudges[k] == After(slots, acts).value.join.nudges[k]
  {
    var before := acts[..|acts| - 1];
    NudgesGrow(After(slots, before).value, acts[|acts| - 1]);
    if k < |After(slots, before).value.join.nudges| {
      i := WhenItWasSent(slots, before, k);
      assert before[..i] == acts[..i] && before[..i + 1] == acts[..i + 1];
    } else {
      i := |acts| - 1;
      assert acts[..i + 1] == acts;
    }
  }

  lemma OneActionOn(slots: nat, acts: seq<Action>, i: nat) returns (s: Sys)
    requires i < |acts| && After(slots, acts[..i + 1]).Some?
    ensures After(slots, acts[..i]) == Some(s) && Enabled(s, acts[i])
    ensures After(slots, acts[..i + 1]) == Some(Apply(s, acts[i]))
  {
    assert acts[..i + 1][..i] == acts[..i];
    s := After(slots, acts[..i]).value;
  }

  /** Whatever nudge a run has sent, there is the action that sent it; a batch nudge tells the size
      of its batch and how many of its jobs were running, completed, failed and canceled in the state
      it was sent from, and it went to the session of a delivered job of the batch. */
  lemma EveryNudgeQuotesTheTable(slots: nat, acts: seq<Action>, k: nat) returns (i: nat, s: Sys, s': Sys)
    requires After(slots, acts).Some? && k < |After(slots, acts).value.join.nudges|
    ensures i < |acts| && After(slots, acts[..i]) == Some(s) && After(slots, acts[..i + 1]) == Some(s')
    ensures |s.join.nudges| == k && |s'.join.nudges| == k + 1
    ensures var n := After(slots, acts).value.join.nudges[k];
            && s'.join.nudges[k] == n
            && (n.Single? ==> acts[i].Deliver? && acts[i].id == n.id)
            && (n.Batch? ==>
                  && n.total == |Members(s.jobs, n.batch)|
                  && n.running == |InStatus(s.jobs, n.batch, Running)|
                  && n.completed == |InStatus(s.jobs, n.batch, Completed)|
                  && n.failed == |InStatus(s.jobs, n.batch, Failed)|
                  && n.canceled == |InStatus(s.jobs, n.batch, Canceled)|
                  && (n.cause.LastMember? <==> acts[i].Deliver?)
                  && (n.cause.StragglerTimeout? <==> acts[i].StragglerWakes?)
                  && Origin(s.jobs, s'.join, n.batch, n.session))
  {
    i := WhenItWasSent(slots, acts, k);
    s := OneActionOn(slots, acts, i);
    s' := After(slots, acts[..i + 1]).value;
    RunKeepsOrigins(slots, acts[..i]);
    NudgesGrow(s, acts[i]);
    StepSends(s, acts[i], k);
    SentToTheOrigin(s, acts[i], k);
  }

  // ---- Disarming ----------------------------------------------------------------------------------

  /** A last member that joins its batch leaves no straggler armed for it: the map has no entry, and
      the task that was armed has been asked to cancel. */
  lemma LastMemberDisarms(jobs: Table, j: Join, id: JobId, task: TaskId, batch: string)
    requires id in jobs && batch !in j.joined && batch in Resumed(jobs, j, id, task).joined
    ensures var j' := Resumed(jobs, j, id, task);
            && j'.timeouts == j.timeouts - {batch}
            && (batch in j.timeouts && j.timeouts[batch] in j.stragglers
                && !j.stragglers[j.timeouts[batch]].phase.Finished? ==>
                  j.timeouts[batch] in j'.stragglers && j'.stragglers[j.timeouts[batch]].phase.CancelRequested?)
  {
  }

  // ---- What is scheduled, and what settles a row -----------------------------------------------------

  /** A terminal delivery is scheduled by a turn's end that the host wants delivered and that leaves
      the row not canceled, and by a work coroutine's end that settles its row; by nothing else. */
  lemma WhatIsScheduled(s: Sys, a: Action, id: JobId)
    requires Enabled(s, a)
    ensures Apply(s, a).join.calls[id] > s.join.calls[id] <==>
            || (a.HookSettles? && a.id == id && a.deliver && !Apply(s, a).jobs[id].status.Canceled?)
            || (a.WorkReturns? && a.id == id && a.deliver && s.jobs[id].status.Running?)
  {
  }

  /** The actions that end a job's turn or work, or stop it. */
  predicate PassesVerdict(a: Action) {
    a.FireFails? || a.HookSettles? || a.WorkReturns? || a.CancelLands? || a.Cancel?
  }

  /** A running row settles by such an action on its own job, and takes the verdict the action
      passes.  A cancel passes none on a turn that has a task handle: that one is asked to stop. */
  lemma WhatSettles(s: Sys, a: Action, id: JobId)
    requires Enabled(s, a) && PassesVerdict(a) && a.id == id && id in s.jobs && s.jobs[id].status.Running?
    ensures var job := Apply(s, a).jobs[id];
            match a
            case FireFails(_, error, at) =>
              job.status.Failed? && job.result == "Background turn delivery error: " + error && job.completedAt == at
            case HookSettles(_, status, text, at, _) =>
              job.status == status && job.result == text && job.completedAt == at
            case WorkReturns(_, status, text, at, _) =>
              job.status == status && job.result == text && job.completedAt == at
            case CancelLands(_, at) => job.status.Canceled? && job.result == "Canceled." && job.completedAt == at
            case Cancel(_, at) =>
              if id in s.pool.workTasks then job.status.Canceled? && job.result == "Canceled." && job.completedAt == at
              else if s.jobs[id].taskId == "" then
                job.status.Canceled? && job.result == "Canceled before the turn registered a task id."
                && job.completedAt == at
              else job.status.Running?
  {
  }

  lemma NothingElseSettles(s: Sys, a: Action, id: JobId)
    requires Enabled(s, a) && id in s.jobs && s.jobs[id].status.Running? && !(PassesVerdict(a) && a.id == id)
    ensures Apply(s, a).jobs[id].status.Running?
  {
    TableOpIsTheWrite(s, a);
  }
  /** The other writes of the table: a drain flags the settled reports of its session, a dismissal
      hides a settled row, and an announcement fills a blank handle; no other row changes. */
  lemma OtherWritesTakeEffect(s: Sys, a: Action, id: JobId)
    requires Enabled(s, a) && id in s.jobs && (a.DrainSession? || a.DismissJob? || a.TurnAnnounces?)
    ensures var was, now := s.jobs[id], Apply(s, a).jobs[id];
            match a
            case DrainSession(session) =>
              now == was.(notified := was.notified || (was.session == session && !was.status.Running?))
            case DismissJob(of) => now == was.(dismissed := was.dismissed || (of == id && !was.status.Running?))
            case TurnAnnounces(of, taskId) =>
              now == was.(taskId := if of == id && was.taskId == "" then taskId else was.taskId)
  {
  }

  /** A spawn adds one running row, with the batch key it was given unless that is blank. */
  lemma SpawnsTakeEffect(s: Sys, a: Action)
    requires Enabled(s, a) && (a.Spawn? || a.SpawnWork?)
    ensures var s' := Apply(s, a);
            && s'.jobs.Keys == s.jobs.Keys + {a.id} && (forall id :: id in s.jobs ==> s'.jobs[id] == s.jobs[id])
            && s'.jobs[a.id] == Job(a.session, if a.batch == Some("") then None else a.batch, a.SpawnWork?, "", Running,
                                    "", 0, false, false)
            && (a.Spawn? ==> a.id in s'.pool.fires && s'.pool.work == s.pool.work)
            && (a.SpawnWork? ==> a.id in s'.pool.work && a.id in s'.pool.workTasks)
  {
  }
}
