/** What the background manager promises, over every run of its actions. */
module BatchJoinTheorems {
  import opened Wrappers
  import opened JobTable
  import ExactlyOnce
  import opened BatchJoin
  import opened BatchJoinInvariant

  // ---- One nudge per batch ------------------------------------------------------------

  /** Each batch gets one batch nudge, and gets it exactly when it is claimed; a nudge's
      tallies add up to the batch size, and one sent by the last member leaves none running. */
  lemma OneNudgePerBatch(slots: nat, acts: seq<Action>)
    requires After(slots, acts).Some?
    ensures var j := After(slots, acts).value.join;
            && (forall b :: BatchNudges(j.nudges, b) == if b in j.joined then 1 else 0)
            && (forall n :: n in j.nudges ==> HonestNudge(n))
  {
    RunKeepsInv(slots, acts);
  }

  /** The nudge names the batch, or names one of its jobs. */
  ghost predicate Concerns(jobs: Table, n: Nudge, batch: string) {
    match n
    case Single(id) => id in jobs && jobs[id].batch == Some(batch)
    case Batch(b, _, _, _, _, _, _, _) => b == batch
  }

  /** A delivery in a joined batch adds no nudge about it: its size is at least two, so it
      is never treated as a singleton, and its claim is taken. */
  lemma DeliveryIsSilent(jobs: Table, j: Join, id: JobId, task: TaskId, batch: string)
    requires MapsInv(jobs, j) && id in jobs && batch in j.joined
    ensures batch in Resumed(jobs, j, id, task).joined
    ensures forall k :: |j.nudges| <= k < |Resumed(jobs, j, id, task).nudges|
              ==> !Concerns(jobs, Resumed(jobs, j, id, task).nudges[k], batch)
    ensures j.nudges <= Resumed(jobs, j, id, task).nudges
  {
  }

  /** The straggler of a joined batch is past its sleep, so one that wakes is another batch's. */
  lemma WakingIsSilent(jobs: Table, j: Join, task: TaskId, batch: string)
    requires task in j.stragglers && j.stragglers[task].phase.Sleeping? && StragglerInv(jobs, j, task)
    requires batch in j.joined
    ensures batch in Woken(jobs, j, task).joined && j.nudges <= Woken(jobs, j, task).nudges
    ensures forall k :: |j.nudges| <= k < |Woken(jobs, j, task).nudges|
              ==> !Concerns(jobs, Woken(jobs, j, task).nudges[k], batch)
  {
  }

  lemma StepIsSilentAboutJoined(s: Sys, a: Action, batch: string)
    requires Inv(s) && Enabled(s, a) && batch in s.join.joined
    ensures var s' := Apply(s, a);
            && batch in s'.join.joined
            && s.join.nudges <= s'.join.nudges
            && forall k :: |s.join.nudges| <= k < |s'.join.nudges| ==> !Concerns(s.jobs, s'.join.nudges[k], batch)
  {
    if a.Deliver? {
      DeliveryIsSilent(s.jobs, s.join, a.id, a.task, batch);
    } else if a.StragglerWakes? {
      WakingIsSilent(s.jobs, s.join, a.task, batch);
    } else {
      OtherStepsSendNothing(s, a);
    }
  }

  lemma OtherStepsSendNothing(s: Sys, a: Action)
    requires Enabled(s, a) && !a.Deliver? && !a.StragglerWakes?
    ensures Apply(s, a).join.nudges == s.join.nudges && Apply(s, a).join.joined == s.join.joined
  {
  }

  /** New rows never make an old nudge concern a batch. */
  lemma ConcernsIsStable(jobs: Table, jobs': Table, n: Nudge, batch: string)
    requires ExactlyOnce.Later(jobs, jobs') && (n.Single? ==> n.id in jobs)
    ensures Concerns(jobs', n, batch) <==> Concerns(jobs, n, batch)
  {
  }

  /** Once a batch has joined, by its last member or by its straggler, no later event of the
      run ever sends another nudge about it: every nudge sent from then on is about others. */
  lemma {:induction false} JoinedBatchFallsSilent(slots: nat, acts: seq<Action>, i: nat, batch: string)
    requires i <= |acts| && After(slots, acts).Some? && After(slots, acts[..i]).Some?
    requires batch in After(slots, acts[..i]).value.join.joined
    ensures batch in After(slots, acts).value.join.joined
    ensures var was, now := After(slots, acts[..i]).value, After(slots, acts).value;
            && was.join.nudges <= now.join.nudges
            && forall k :: |was.join.nudges| <= k < |now.join.nudges|
                 ==> !Concerns(now.jobs, now.join.nudges[k], batch)
  {
    if i == |acts| {
      assert acts[..i] == acts;
    } else {
      var before := acts[..|acts| - 1];
      assert before[..i] == acts[..i];
      JoinedBatchFallsSilent(slots, before, i, batch);
      var was, mid, now := After(slots, acts[..i]).value, After(slots, before).value, After(slots, acts).value;
      RunKeepsInv(slots, before);
      StepIsSilentAboutJoined(mid, acts[|acts| - 1], batch);
      JobsMoveForward(mid, acts[|acts| - 1]);
      NudgedJobsExist(slots, acts);
      NudgedJobsExist(slots, before);
      forall k | |was.join.nudges| <= k < |now.join.nudges| ensures !Concerns(now.jobs, now.join.nudges[k], batch) {
        var n := now.join.nudges[k];
        if k < |mid.join.nudges| {
          assert n == mid.join.nudges[k] && n in mid.join.nudges;
          ConcernsIsStable(mid.jobs, now.jobs, n, batch);
        } else {
          NewNudgesNameRows(mid, acts[|acts| - 1], k);
          ConcernsIsStable(mid.jobs, now.jobs, n, batch);
        }
      }
    }
  }

  lemma DeliveryNudgesNameRows(jobs: Table, j: Join, id: JobId, task: TaskId, k: nat)
    requires id in jobs && |j.nudges| <= k < |Resumed(jobs, j, id, task).nudges|
    ensures var n := Resumed(jobs, j, id, task).nudges[k]; n.Single? ==> n.id in jobs
  {
  }

  lemma NewNudgesNameRows(s: Sys, a: Action, k: nat)
    requires Enabled(s, a) && |s.join.nudges| <= k < |Apply(s, a).join.nudges|
    ensures Apply(s, a).join.nudges[k].Single? ==> Apply(s, a).join.nudges[k].id in s.jobs
  {
    if a.Deliver? {
      DeliveryNudgesNameRows(s.jobs, s.join, a.id, a.task, k);
    } else if !a.StragglerWakes? {
      OtherStepsSendNothing(s, a);
    }
  }

  /** Every job a nudge names has a row. */
  lemma {:induction false} NudgedJobsExist(slots: nat, acts: seq<Action>)
    requires After(slots, acts).Some?
    ensures var s := After(slots, acts).value;
            forall n :: n in s.join.nudges && n.Single? ==> n.id in s.jobs
  {
    if acts != [] {
      var before := acts[..|acts| - 1];
      NudgedJobsExist(slots, before);
      var s, a := After(slots, before).value, acts[|acts| - 1];
      JobsMoveForward(s, a);
      if !a.Deliver? && !a.StragglerWakes? { OtherStepsSendNothing(s, a); }
    }
  }

  // ---- No stranded batch ----------------------------------------------------------------

  /** Wherever a run stops, each job whose terminal delivery has run was nudged on its own,
      or its batch has joined, or a live straggler is armed for its batch. */
  lemma NoStrandedBatch(slots: nat, acts: seq<Action>, id: JobId)
    requires After(slots, acts).Some?
    requires id in After(slots, acts).value.join.called
    ensures var s := After(slots, acts).value;
            && id in s.jobs
            && (Single(id) in s.join.nudges
                || (s.jobs[id].batch.Some?
                    && (s.jobs[id].batch.value in s.join.joined || Armed(s.join, s.jobs[id].batch.value))))
  {
    RunKeepsInv(slots, acts);
    assert Accounted(After(slots, acts).value.jobs, After(slots, acts).value.join, id);
  }

  /** An armed straggler can always wake, and waking joins its batch and nudges about it. */
  lemma ArmedStragglerCanJoin(slots: nat, acts: seq<Action>, batch: string)
    requires After(slots, acts).Some? && Armed(After(slots, acts).value.join, batch)
    ensures var s := After(slots, acts).value;
            var more := acts + [StragglerWakes(s.join.timeouts[batch])];
            && After(slots, more).Some?
            && batch in After(slots, more).value.join.joined
            && |After(slots, more).value.join.nudges| == |s.join.nudges| + 1
            && Concerns(s.jobs, After(slots, more).value.join.nudges[|s.join.nudges|], batch)
  {
    RunKeepsInv(slots, acts);
    var s := After(slots, acts).value;
    var task := s.join.timeouts[batch];
    assert StragglerInv(s.jobs, s.join, task);
    ExtendRun(slots, acts, StragglerWakes(task));
  }

  lemma ExtendRun(slots: nat, acts: seq<Action>, a: Action)
    requires After(slots, acts).Some? && Enabled(After(slots, acts).value, a)
    ensures After(slots, acts + [a]) == Some(Apply(After(slots, acts).value, a))
  {
  }

  /** A batch joins only on behalf of a member whose terminal delivery ran: one whose
      members all fail to fire or are canceled is never nudged about. */
  lemma NudgeNeedsADelivery(slots: nat, acts: seq<Action>, batch: string)
    requires After(slots, acts).Some? && batch in After(slots, acts).value.join.joined
    ensures MemberCalled(After(slots, acts).value.jobs, After(slots, acts).value.join, batch)
    ensures |Members(After(slots, acts).value.jobs, batch)| >= 2
  {
    RunKeepsInv(slots, acts);
  }

  // ---- The straggler nudge's promise --------------------------------------------------------

  function StragglerRun(): seq<Action> {
    [Spawn("a", "chat", Some("turn")), Spawn("b", "chat", Some("turn")),
     HookSettles("a", Completed, "report", 1, true), Deliver("a", 0), StragglerWakes(0)]
  }

  function MidwayJobs(): Table {
    map["a" := Job("chat", Some("turn"), false, "", Completed, "report", 1, false, false),
        "b" := Job("chat", Some("turn"), false, "", Running, "", 0, false, false)]
  }

  /** One more action of a run, from the state the run has reached. */
  lemma OneMoreAction(slots: nat, run: seq<Action>, i: nat, s: Sys)
    requires i < |run| && After(slots, run[..i]) == Some(s) && Enabled(s, run[i])
    ensures After(slots, run[..i + 1]) == Some(Apply(s, run[i]))
  {
    assert run[..i + 1] == run[..i] + [run[i]];
    ExtendRun(slots, run[..i], run[i]);
  }

  lemma StragglerRunSpawns(slots: nat) returns (s: Sys)
    ensures After(slots, StragglerRun()[..2]) == Some(s)
    ensures s.jobs == map["a" := Job("chat", Some("turn"), false, "", Running, "", 0, false, false),
                          "b" := Job("chat", Some("turn"), false, "", Running, "", 0, false, false)]
    ensures s.join == Init(slots).join && "a" in s.pool.fires
  {
    var run := StragglerRun();
    OneMoreAction(slots, run, 0, Init(slots));
    s := Apply(Init(slots), run[0]);
    OneMoreAction(slots, run, 1, s);
    s := Apply(s, run[1]);
  }

  lemma StragglerRunSettles(slots: nat)
    ensures var s := After(slots, StragglerRun()[..3]);
            && s.Some? && s.value.jobs == MidwayJobs()
            && s.value.join == Join({}, map[], map[], multiset{"a"}, {}, [])
  {
    var s := StragglerRunSpawns(slots);
    OneMoreAction(slots, StragglerRun(), 2, s);
  }

  lemma MidwayTallies()
    ensures var t := MidwayJobs();
            && |Members(t, "turn")| == 2 && |InStatus(t, "turn", Running)| == 1
            && |InStatus(t, "turn", Completed)| == 1
            && |InStatus(t, "turn", Failed)| == 0 && |InStatus(t, "turn", Canceled)| == 0
  {
    var t := MidwayJobs();
    assert Members(t, "turn") == {"a", "b"};
    assert InStatus(t, "turn", Running) == {"b"};
    assert InStatus(t, "turn", Completed) == {"a"};
    assert InStatus(t, "turn", Failed) == {} == InStatus(t, "turn", Canceled);
  }

  lemma MidwayDelivery(j: Join)
    requires j == Join({}, map[], map[], multiset{"a"}, {}, [])
    ensures var held := Resumed(MidwayJobs(), j, "a", 0);
            && held.nudges == [] && held.joined == {}
            && held.stragglers == map[0 := Straggler("turn", "chat", Sleeping)]
  {
    MidwayTallies();
  }

  lemma StragglerRunHolds(slots: nat) returns (s: Sys)
    ensures After(slots, StragglerRun()[..4]) == Some(s)
    ensures s.jobs == MidwayJobs() && s.join.nudges == [] && s.join.joined == {}
    ensures s.join.stragglers == map[0 := Straggler("turn", "chat", Sleeping)]
  {
    StragglerRunSettles(slots);
    s := After(slots, StragglerRun()[..3]).value;
    MidwayDelivery(s.join);
    OneMoreAction(slots, StragglerRun(), 3, s);
    s := Apply(s, StragglerRun()[3]);
  }

  /** A reachable straggler nudge that promises one report "separately". */
  lemma StragglerPromiseIsMade(slots: nat)
    ensures var s := After(slots, StragglerRun());
            && s.Some?
            && s.value.join.nudges == [Batch("turn", "chat", StragglerTimeout, 2, 1, 1, 0, 0)]
            && "b" in s.value.jobs && s.value.jobs["b"].status.Running? && "turn" in s.value.join.joined
  {
    var run := StragglerRun();
    MidwayTallies();
    var held := StragglerRunHolds(slots);
    OneMoreAction(slots, run, 4, held);
    assert run[..5] == run;
  }

  lemma {:induction false} RowsStay(slots: nat, acts: seq<Action>, i: nat, id: JobId)
    requires i <= |acts| && After(slots, acts).Some? && After(slots, acts[..i]).Some?
    requires id in After(slots, acts[..i]).value.jobs
    ensures id in After(slots, acts).value.jobs
    ensures After(slots, acts).value.jobs[id].batch == After(slots, acts[..i]).value.jobs[id].batch
  {
    if i == |acts| {
      assert acts[..i] == acts;
    } else {
      var before := acts[..|acts| - 1];
      assert before[..i] == acts[..i];
      RowsStay(slots, before, i, id);
      JobsMoveForward(After(slots, before).value, acts[|acts| - 1]);
    }
  }

  // ---- The manager delivers through the table -------------------------------------------------

  /** The table operations of a run, in order. */
  ghost function TableOps(slots: nat, acts: seq<Action>): seq<ExactlyOnce.Op>
    requires After(slots, acts).Some?
  {
    if acts == [] then [] else
    var before := acts[..|acts| - 1];
    var op := TableOp(After(slots, before).value, acts[|acts| - 1]);
    TableOps(slots, before) + if op.Some? then [op.value] else []
  }

  /** The manager's table is always the result of its table operations alone. */
  lemma {:induction false} ManagerRunsAreTableRuns(slots: nat, acts: seq<Action>)
    requires After(slots, acts).Some?
    ensures After(slots, acts).value.jobs == ExactlyOnce.Run(map[], TableOps(slots, acts))
  {
    if acts != [] {
      var before, a := acts[..|acts| - 1], acts[|acts| - 1];
      ManagerRunsAreTableRuns(slots, before);
      var s := After(slots, before).value;
      var ops, op := TableOps(slots, before), TableOp(s, a);
      TableOpIsTheWrite(s, a);
      if op.Some? {
        assert (ops + [op.value])[..|ops|] == ops;
      } else {
        assert TableOps(slots, acts) == ops;
      }
    }
  }

  /** Exactly-once delivery holds of the manager: in every interleaving each job runs, or is settled
      and still owed, or was returned by one drain alone, with the first verdict passed on it. */
  lemma ManagerDeliversExactlyOnce(slots: nat, acts: seq<Action>, id: JobId)
    requires After(slots, acts).Some? && id in After(slots, acts).value.jobs
    ensures var job, ops := After(slots, acts).value.jobs[id], TableOps(slots, acts);
            && (job.status.Running? ==> ExactlyOnce.FirstVerdict(ops, id).None? && !job.notified)
            && (!job.status.Running? ==> ExactlyOnce.FirstVerdict(ops, id) == Some((job.status, job.result)))
            && (!job.notified ==> forall k :: 0 <= k < |ops| ==> id !in ExactlyOnce.DeliveredAt(map[], ops, k))
            && (job.notified ==> exists k :: ExactlyOnce.DeliveredOnlyAt(ops, k, id))
  {
    var ops := TableOps(slots, acts);
    ManagerRunsAreTableRuns(slots, acts);
    ExactlyOnce.RowHoldsFirstVerdict(ops, id);
    ExactlyOnce.ExactlyOnceDelivery(ops, id);
  }

  lemma {:induction false} TableOpsGrow(slots: nat, acts: seq<Action>, i: nat)
    requires i <= |acts| && After(slots, acts).Some? && After(slots, acts[..i]).Some?
    ensures TableOps(slots, acts[..i]) <= TableOps(slots, acts)
  {
    if i == |acts| {
      assert acts[..i] == acts;
    } else {
      var before := acts[..|acts| - 1];
      assert before[..i] == acts[..i];
      TableOpsGrow(slots, before, i);
    }
  }

  /** A report not flagged yet at one point of a run was returned by no drain up to there. */
  lemma NotDeliveredWhileOwed(early: seq<ExactlyOnce.Op>, ops: seq<ExactlyOnce.Op>, id: JobId, k: nat)
    requires early <= ops && k < |early|
    requires id in ExactlyOnce.Run(map[], early) && !ExactlyOnce.Run(map[], early)[id].notified
    ensures id !in ExactlyOnce.DeliveredAt(map[], ops, k)
  {
    assert early[..k] == ops[..k];
    assert ExactlyOnce.DeliveredAt(map[], early, k) == ExactlyOnce.DeliveredAt(map[], ops, k);
    ExactlyOnce.NotifiedMeansDelivered(early, id);
  }

  /** A report not returned yet at one point of a run, and settled by a later drain of its session,
      was returned between the two, by one drain alone. */
  lemma ReportIsDrainedAfter(early: seq<ExactlyOnce.Op>, ops: seq<ExactlyOnce.Op>, id: JobId)
    requires early <= ops && ops != [] && ops[|ops| - 1].Drain?
    requires id in ExactlyOnce.Run(map[], early) && !ExactlyOnce.Run(map[], early)[id].notified
    requires id in ExactlyOnce.Run(map[], ops) && !ExactlyOnce.Run(map[], ops)[id].status.Running?
    requires ExactlyOnce.Run(map[], ops)[id].session == ops[|ops| - 1].session
    ensures exists k :: |early| <= k < |ops| && ExactlyOnce.DeliveredOnlyAt(ops, k, id)
  {
    ExactlyOnce.RowHoldsFirstVerdict(ops, id);
    ExactlyOnce.NothingOwedAfterDrain(ops, id);
    ExactlyOnce.ExactlyOnceDelivery(ops, id);
    var k :| ExactlyOnce.DeliveredOnlyAt(ops, k, id);
    if k < |early| { NotDeliveredWhileOwed(early, ops, id, k); }
  }

  /** The same over the manager's runs: the drain is the last action taken. */
  lemma OwedReportIsDrained(slots: nat, acts: seq<Action>, i: nat, id: JobId)
    requires i < |acts| && After(slots, acts).Some? && After(slots, acts[..i]).Some?
    requires id in After(slots, acts[..i]).value.jobs && !After(slots, acts[..i]).value.jobs[id].notified
    requires id in After(slots, acts).value.jobs && !After(slots, acts).value.jobs[id].status.Running?
    requires acts[|acts| - 1] == DrainSession(After(slots, acts).value.jobs[id].session)
    ensures exists k :: |TableOps(slots, acts[..i])| <= k < |TableOps(slots, acts)|
              && ExactlyOnce.DeliveredOnlyAt(TableOps(slots, acts), k, id)
  {
    TableOpsGrow(slots, acts, i);
    ManagerRunsAreTableRuns(slots, acts);
    ManagerRunsAreTableRuns(slots, acts[..i]);
    ReportIsDrainedAfter(TableOps(slots, acts[..i]), TableOps(slots, acts), id);
  }

  /** "The rest will notify separately" is met by the drain alone: after a batch has joined, no
      continuation ever nudges about it again; and a member whose report was not returned by then
      (every one still running) has it returned after the join, by one drain alone, wherever the
      run has drained its session with the job settled. */
  lemma StragglerPromiseIsLeftToDrain(slots: nat, acts: seq<Action>, i: nat, batch: string, id: JobId)
    requires i <= |acts| && After(slots, acts).Some? && After(slots, acts[..i]).Some?
    requires batch in After(slots, acts[..i]).value.join.joined
    requires id in After(slots, acts[..i]).value.jobs
    requires After(slots, acts[..i]).value.jobs[id].batch == Some(batch)
    ensures var was, now := After(slots, acts[..i]).value, After(slots, acts).value;
            && id in now.jobs
            && (forall k :: |was.join.nudges| <= k < |now.join.nudges|
                  ==> !Concerns(now.jobs, now.join.nudges[k], batch))
            && (was.jobs[id].status.Running? ==> !was.jobs[id].notified)
            && (!was.jobs[id].notified && !now.jobs[id].status.Running?
                && i < |acts| && acts[|acts| - 1] == DrainSession(now.jobs[id].session) ==>
                  exists k :: |TableOps(slots, acts[..i])| <= k < |TableOps(slots, acts)|
                    && ExactlyOnce.DeliveredOnlyAt(TableOps(slots, acts), k, id))
  {
    JoinedBatchFallsSilent(slots, acts, i, batch);
    RowsStay(slots, acts, i, id);
    var was, now := After(slots, acts[..i]).value, After(slots, acts).value;
    ManagerDeliversExactlyOnce(slots, acts[..i], id);
    if !was.jobs[id].notified && !now.jobs[id].status.Running?
       && i < |acts| && acts[|acts| - 1] == DrainSession(now.jobs[id].session) {
      OwedReportIsDrained(slots, acts, i, id);
    }
  }

  // ---- Completion events and slots -------------------------------------------------------------

  /** Before action `i`, a cancel of the job finds its row running and no task to stop. */
  ghost predicate UnseenCancelAt(slots: nat, acts: seq<Action>, i: nat, id: JobId) {
    i < |acts| && After(slots, acts[..i]).Some? &&
    var s := After(slots, acts[..i]).value;
    acts[i].Cancel? && acts[i].id == id && id in s.jobs && s.jobs[id].status.Running? && id !in s.pool.workTasks
  }

  ghost predicate UnseenCancel(slots: nat, acts: seq<Action>, id: JobId) {
    exists i: nat :: UnseenCancelAt(slots, acts, i, id)
  }

  lemma UnseenCancelSnoc(slots: nat, acts: seq<Action>, id: JobId)
    requires acts != []
    ensures var n := |acts| - 1;
            UnseenCancel(slots, acts, id) <==> UnseenCancel(slots, acts[..n], id) || UnseenCancelAt(slots, acts, n, id)
  {
    var n := |acts| - 1;
    forall i: nat | i < n
      ensures UnseenCancelAt(slots, acts, i, id) <==> UnseenCancelAt(slots, acts[..n], i, id)
    {
      assert acts[..n][..i] == acts[..i];
    }
  }

  /** A work job has published one completion event if it is terminal and none if it is not,
      in every interleaving of completion, failure, cancellation and work that swallows
      its cancellation — except that a cancel which finds the row running but no task to stop
      settles the row and publishes nothing. */
  lemma {:induction false} OneEventPerTerminalWork(slots: nat, acts: seq<Action>, id: JobId)
    requires After(slots, acts).Some? && id in After(slots, acts).value.pool.work
    ensures var s := After(slots, acts).value;
            && id in s.jobs
            && s.pool.events[id] == (if !s.jobs[id].status.Running? && !UnseenCancel(slots, acts, id) then 1 else 0)
            && (UnseenCancel(slots, acts, id) ==> !s.jobs[id].status.Running?)
  {
    var before, a := acts[..|acts| - 1], acts[|acts| - 1];
    var s := After(slots, before).value;
    RunKeepsInv(slots, before);
    UnseenCancelSnoc(slots, acts, id);
    if id in s.pool.work {
      OneEventPerTerminalWork(slots, before, id);
      EventsFollowVerdicts(s, a, id);
    } else {
      NewWorkIsRunning(s, a, id);
      NoCancelBeforeSpawn(slots, before, id);
    }
  }

  lemma NewWorkIsRunning(s: Sys, a: Action, id: JobId)
    requires PoolInv(s.jobs, s.pool) && Enabled(s, a) && id !in s.pool.work && id in Apply(s, a).pool.work
    ensures a.SpawnWork? && id !in s.jobs && id in Apply(s, a).jobs && Apply(s, a).jobs[id].status.Running?
    ensures Apply(s, a).pool.events[id] == 0
  {
  }

  lemma OthersPublishNothing(s: Sys, a: Action, id: JobId)
    requires PoolInv(s.jobs, s.pool) && Enabled(s, a) && id in s.pool.work && id in s.jobs
    requires !a.Cancel? && !a.WorkReturns?
    ensures Apply(s, a).pool.events == s.pool.events
    ensures id in Apply(s, a).jobs && Apply(s, a).jobs[id].status == s.jobs[id].status
  {
    assert WorkInv(s.jobs, s.pool, id);
  }

  lemma CancelPublishes(s: Sys, target: JobId, at: int, id: JobId)
    requires PoolInv(s.jobs, s.pool) && id in s.pool.work && id in s.jobs
    ensures var s', running := CancelStep(s, target, at), s.jobs[id].status.Running?;
            && id in s'.jobs
            && s'.pool.events[id] == s.pool.events[id]
                 + (if running && target == id && id in s.pool.workTasks then 1 else 0)
            && s'.jobs[id].status == if running && target == id then Canceled else s.jobs[id].status
  {
    assert WorkInv(s.jobs, s.pool, id);
  }

  /** One action publishes an event for a work job exactly when it settles the job in sight. */
  lemma EventsFollowVerdicts(s: Sys, a: Action, id: JobId)
    requires PoolInv(s.jobs, s.pool) && Enabled(s, a) && id in s.pool.work && id in s.jobs
    ensures var s' := Apply(s, a);
            var unseen := a.Cancel? && a.id == id && s.jobs[id].status.Running? && id !in s.pool.workTasks;
            && id in s'.jobs
            && (unseen ==> !s'.jobs[id].status.Running?)
            && (!s.jobs[id].status.Running? ==> !s'.jobs[id].status.Running?)
            && s'.pool.events[id] == s.pool.events[id]
                 + if s.jobs[id].status.Running? && !s'.jobs[id].status.Running? && !unseen then 1 else 0
  {
    match a
    case Cancel(target, at) => CancelPublishes(s, target, at, id);
    case WorkReturns(_, _, _, _, _) =>
    case _ => OthersPublishNothing(s, a, id);
  }

  /** The job's coroutine ended by a cancellation nobody had asked for: its row still ran. */
  ghost predicate UninvitedUnwindAt(slots: nat, acts: seq<Action>, i: nat, id: JobId) {
    i < |acts| && After(slots, acts[..i]).Some? && acts[i] == WorkUnwinds(id) &&
    var s := After(slots, acts[..i]).value;
    id in s.jobs && s.jobs[id].status.Running?
    && (id in s.pool.work ==> !s.pool.work[id].cancelRequested)
  }

  /** The exception above needs work whose coroutine was cancelled from elsewhere first. */
  lemma UnseenCancelNeedsUninvitedUnwind(slots: nat, acts: seq<Action>, id: JobId)
    requires After(slots, acts).Some? && id in After(slots, acts).value.pool.work
    requires UnseenCancel(slots, acts, id)
    ensures exists i: nat :: UninvitedUnwindAt(slots, acts, i, id)
  {
    var k: nat :| UnseenCancelAt(slots, acts, k, id);
    var before := acts[..k];
    RunKeepsInv(slots, before);
    var s := After(slots, before).value;
    if id !in s.pool.work {
      WorkIsChosenAtSpawn(slots, acts, k, id);
    }
    assert WorkInv(s.jobs, s.pool, id);
    UnwoundCameFromUninvited(slots, before, id);
    var i: nat :| UninvitedUnwindAt(slots, before, i, id);
    assert before[..i] == acts[..i];
    assert UninvitedUnwindAt(slots, acts, i, id);
  }

  lemma WorkOnlyGrowsBySpawning(s: Sys, a: Action, id: JobId)
    requires Enabled(s, a) && id in s.jobs
    ensures id in Apply(s, a).pool.work <==> id in s.pool.work
  {
  }

  /** Whether a job is a work job is settled by the action that creates its row. */
  lemma {:induction false} WorkIsChosenAtSpawn(slots: nat, acts: seq<Action>, i: nat, id: JobId)
    requires i <= |acts| && After(slots, acts).Some? && After(slots, acts[..i]).Some?
    requires id in After(slots, acts[..i]).value.jobs
    ensures id in After(slots, acts).value.pool.work <==> id in After(slots, acts[..i]).value.pool.work
  {
    if i == |acts| {
      assert acts[..i] == acts;
    } else {
      var before := acts[..|acts| - 1];
      assert before[..i] == acts[..i];
      WorkIsChosenAtSpawn(slots, before, i, id);
      RowsStay(slots, before, i, id);
      WorkOnlyGrowsBySpawning(After(slots, before).value, acts[|acts| - 1], id);
    }
  }

  lemma {:induction false} UnwoundCameFromUninvited(slots: nat, acts: seq<Action>, id: JobId)
    requires After(slots, acts).Some? && id in After(slots, acts).value.pool.unwound
    ensures exists i: nat :: UninvitedUnwindAt(slots, acts, i, id)
  {
    var n := |acts| - 1;
    var before := acts[..n];
    var s := After(slots, before).value;
    if id in s.pool.unwound {
      UnwoundCameFromUninvited(slots, before, id);
      var i: nat :| UninvitedUnwindAt(slots, before, i, id);
      assert before[..i] == acts[..i];
      assert UninvitedUnwindAt(slots, acts, i, id);
    } else {
      RunKeepsInv(slots, before);
      UnwindingIsUninvited(s, acts[n], id);
      assert UninvitedUnwindAt(slots, acts, n, id);
    }
  }

  lemma UnwindingIsUninvited(s: Sys, a: Action, id: JobId)
    requires PoolInv(s.jobs, s.pool) && Enabled(s, a)
    requires id !in s.pool.unwound && id in Apply(s, a).pool.unwound
    ensures a == WorkUnwinds(id) && id in s.jobs && s.jobs[id].status.Running?
    ensures id in s.pool.work && !s.pool.work[id].cancelRequested
  {
  }

  /** The exception happens: a work coroutine cancelled from elsewhere, then a cancel. */
  function UnseenCancelRun(): seq<Action> {
    [SpawnWork("w", "chat", None), Acquire("w"), WorkUnwinds("w"), WorkForgotten("w"), Cancel("w", 1)]
  }

  lemma UnseenCancelRunHolds(slots: nat) returns (s: Sys)
    requires slots >= 1
    ensures After(slots, UnseenCancelRun()[..2]) == Some(s)
    ensures s.jobs == map["w" := Job("chat", None, true, "", Running, "", 0, false, false)]
    ensures s.pool.work == map["w" := WorkTask(Holding, false)]
    ensures s.pool.workTasks == {"w"} && s.pool.events == multiset{}
  {
    var run := UnseenCancelRun();
    OneMoreAction(slots, run, 0, Init(slots));
    s := Apply(Init(slots), run[0]);
    OneMoreAction(slots, run, 1, s);
    s := Apply(s, run[1]);
  }

  lemma UnseenCancelRunUnwinds(slots: nat) returns (s: Sys)
    requires slots >= 1
    ensures After(slots, UnseenCancelRun()[..3]) == Some(s)
    ensures s.jobs == map["w" := Job("chat", None, true, "", Running, "", 0, false, false)]
    ensures s.pool.work == map["w" := WorkTask(TaskPhase.Ended, false)]
    ensures s.pool.workTasks == {"w"} && s.pool.events == multiset{}
  {
    s := UnseenCancelRunHolds(slots);
    OneMoreAction(slots, UnseenCancelRun(), 2, s);
    s := Apply(s, UnseenCancelRun()[2]);
  }

  lemma TerminalWithoutEvent(slots: nat)
    requires slots >= 1
    ensures var s := After(slots, UnseenCancelRun());
            && s.Some? && "w" in s.value.jobs && s.value.jobs["w"].status.Canceled?
            && s.value.pool.events["w"] == 0
  {
    var run := UnseenCancelRun();
    var unwound := UnseenCancelRunUnwinds(slots);
    OneMoreAction(slots, run, 3, unwound);
    OneMoreAction(slots, run, 4, Apply(unwound, run[3]));
    assert run[..5] == run;
  }

  lemma {:induction false} NoCancelBeforeSpawn(slots: nat, acts: seq<Action>, id: JobId)
    requires After(slots, acts).Some? && id !in After(slots, acts).value.jobs
    ensures !UnseenCancel(slots, acts, id)
  {
    if acts != [] {
      var before := acts[..|acts| - 1];
      JobsMoveForward(After(slots, before).value, acts[|acts| - 1]);
      NoCancelBeforeSpawn(slots, before, id);
      UnseenCancelSnoc(slots, acts, id);
    }
  }

  /** At most the configured number of jobs hold a slot at once. */
  lemma SlotsAreBounded(slots: nat, acts: seq<Action>)
    requires After(slots, acts).Some?
    ensures |Holders(After(slots, acts).value.pool)| <= slots
  {
    RunKeepsInv(slots, acts);
  }
}
