/** Exactly-once delivery of background reports, over every run of table operations. */
module ExactlyOnce {
  import opened Wrappers
  import opened JobTable

  datatype Op =
    | Create(id: JobId, session: string, batch: Option<string>, deterministic: bool)
    | Announce(id: JobId, taskId: string)
    | Mark(id: JobId, status: Status, result: string, at: int)
    | Drain(session: string)
    | Reconcile(at: int)
    | Dismiss(id: JobId)
    | DismissFinished(scope: Option<string>)

  /** A creation that reuses an id, and a mark with a non-terminal status, are both refused. */
  function Apply(t: Table, op: Op): Table {
    match op
    case Create(id, session, batch, det) => if id in t then t else Inserted(t, id, session, batch, det)
    case Announce(id, taskId) => Announced(t, id, taskId)
    case Mark(id, status, result, at) => if status.Running? then t else Settled(t, id, status, result, at)
    case Drain(session) => Flagged(t, Pending(t, session))
    case Reconcile(at) => Interrupted(t, at)
    case Dismiss(id) => Dismissed(t, Dismissable(t, None) * {id})
    case DismissFinished(scope) => Dismissed(t, Dismissable(t, scope))
  }

  /** What an operation hands to the model: only a drain returns reports. */
  function Delivered(t: Table, op: Op): set<JobId> {
    if op.Drain? then Pending(t, op.session) else {}
  }

  function Run(t: Table, ops: seq<Op>): Table {
    if ops == [] then t else Apply(Run(t, ops[..|ops| - 1]), ops[|ops| - 1])
  }

  /** The reports handed over by operation `i` of a run. */
  function DeliveredAt(t: Table, ops: seq<Op>, i: nat): set<JobId>
    requires i < |ops|
  {
    Delivered(Run(t, ops[..i]), ops[i])
  }

  predicate WasCreated(ops: seq<Op>, id: JobId) {
    exists i :: 0 <= i < |ops| && ops[i].Create? && ops[i].id == id
  }

  /** The first verdict any operation passes on a job, read off the history alone. */
  function FirstVerdict(ops: seq<Op>, id: JobId): Option<(Status, string)> {
    if ops == [] then None else
    var before, op := ops[..|ops| - 1], ops[|ops| - 1];
    var earlier := FirstVerdict(before, id);
    if earlier.Some? || !WasCreated(before, id) then earlier
    else if op.Mark? && op.id == id && !op.status.Running? then Some((op.status, op.result))
    else if op.Reconcile? then Some((Failed, INTERRUPTED))
    else None
  }

  // ---- What one operation, and then a whole run, can never undo -----------------

  /** `t'` comes after `t`: rows stay, identity fields stay, verdicts stay, flags stay. */
  ghost predicate Later(t: Table, t': Table) {
    forall id :: id in t ==>
      && id in t'
      && t'[id].session == t[id].session
      && t'[id].batch == t[id].batch
      && t'[id].deterministic == t[id].deterministic
      && (!t[id].status.Running? ==>
            t'[id].status == t[id].status && t'[id].result == t[id].result
            && t'[id].completedAt == t[id].completedAt)
      && (t[id].notified ==> t'[id].notified)
      && (t[id].dismissed ==> t'[id].dismissed)
      && (t[id].taskId != "" ==> t'[id].taskId == t[id].taskId)
  }

  lemma ApplyIsLater(t: Table, op: Op)
    ensures Later(t, Apply(t, op))
  {
  }

  /** A settled row keeps its verdict, and every set flag, for the rest of the run. */
  lemma {:induction false} RunIsLater(t: Table, ops: seq<Op>, i: nat)
    requires i <= |ops|
    ensures Later(Run(t, ops[..i]), Run(t, ops))
  {
    if i == |ops| {
      assert ops[..i] == ops;
    } else {
      var before := ops[..|ops| - 1];
      RunIsLater(t, before, i);
      assert before[..i] == ops[..i];
      ApplyIsLater(Run(t, before), ops[|ops| - 1]);
    }
  }

  // ---- The verdict a drain carries -----------------------------------------------

  /** A row holds the first verdict of the history, and runs while there is none. */
  lemma {:induction false} RowHoldsFirstVerdict(ops: seq<Op>, id: JobId)
    ensures id in Run(map[], ops) <==> WasCreated(ops, id)
    ensures id in Run(map[], ops) ==>
              var job := Run(map[], ops)[id];
              match FirstVerdict(ops, id)
              case None => job.status.Running? && !job.notified
              case Some(v) => job.status == v.0 && job.result == v.1 && !job.status.Running?
    ensures !WasCreated(ops, id) ==> FirstVerdict(ops, id).None?
  {
    if ops != [] {
      var before, op := ops[..|ops| - 1], ops[|ops| - 1];
      RowHoldsFirstVerdict(before, id);
      assert WasCreated(ops, id) <==> WasCreated(before, id) || (op.Create? && op.id == id) by {
        assert forall i :: 0 <= i < |before| ==> ops[i] == before[i];
      }
    }
  }

  /** Once passed, the first verdict of a history is the first verdict of every longer one. */
  lemma {:induction false} FirstVerdictStays(ops: seq<Op>, i: nat, id: JobId)
    requires i <= |ops| && FirstVerdict(ops[..i], id).Some?
    ensures FirstVerdict(ops, id) == FirstVerdict(ops[..i], id)
  {
    if i == |ops| {
      assert ops[..i] == ops;
    } else {
      var before := ops[..|ops| - 1];
      assert before[..i] == ops[..i];
      FirstVerdictStays(before, i, id);
    }
  }

  /** Whatever a drain returns, whenever it runs, carries the job's first verdict. */
  lemma DrainCarriesFirstVerdict(ops: seq<Op>, i: nat, id: JobId)
    requires i < |ops| && id in DeliveredAt(map[], ops, i)
    ensures var job := Run(map[], ops[..i])[id];
            FirstVerdict(ops, id) == Some((job.status, job.result)) && !job.status.Running?
  {
    RowHoldsFirstVerdict(ops[..i], id);
    FirstVerdictStays(ops, i, id);
  }

  // ---- Exactly once ------------------------------------------------------------------

  /** No job is returned by two drains. */
  lemma AtMostOneDrain(t: Table, ops: seq<Op>, i: nat, j: nat, id: JobId)
    requires i < j < |ops|
    requires id in DeliveredAt(t, ops, i)
    ensures id !in DeliveredAt(t, ops, j)
  {
    var upto := ops[..i + 1];
    assert upto[..|upto| - 1] == ops[..i];
    assert Run(t, upto) == Apply(Run(t, ops[..i]), ops[i]);
    RunIsLater(t, ops[..j], i + 1);
    assert ops[..j][..i + 1] == upto;
  }

  /** One operation raises a job's flag exactly when it delivers the job. */
  lemma FlagRisesByDelivery(t: Table, op: Op, id: JobId)
    ensures (id in Apply(t, op) && Apply(t, op)[id].notified)
            <==> (id in t && t[id].notified) || id in Delivered(t, op)
  {
  }

  /** The notified flag says exactly that some drain of the run returned the job. */
  lemma {:induction false} NotifiedMeansDelivered(ops: seq<Op>, id: JobId)
    ensures id in Run(map[], ops) && Run(map[], ops)[id].notified
            <==> exists i :: 0 <= i < |ops| && id in DeliveredAt(map[], ops, i)
  {
    if ops != [] {
      var n := |ops| - 1;
      var before := ops[..n];
      NotifiedMeansDelivered(before, id);
      forall i | 0 <= i < n ensures DeliveredAt(map[], before, i) == DeliveredAt(map[], ops, i) {
        assert before[..i] == ops[..i];
      }
      var t := Run(map[], before);
      assert DeliveredAt(map[], ops, n) == Delivered(t, ops[n]);
      FlagRisesByDelivery(t, ops[n], id);
    }
  }

  ghost predicate DeliveredOnlyAt(ops: seq<Op>, i: int, id: JobId) {
    && 0 <= i < |ops| && id in DeliveredAt(map[], ops, i)
    && forall j :: 0 <= j < |ops| && id in DeliveredAt(map[], ops, j) ==> j == i
  }

  /** Over any run, every job is running, or settled and still owed, or delivered by
      exactly one drain with the first verdict ever passed on it. */
  lemma ExactlyOnceDelivery(ops: seq<Op>, id: JobId)
    requires WasCreated(ops, id)
    ensures id in Run(map[], ops)
    ensures var job := Run(map[], ops)[id];
            && (job.status.Running? ==> FirstVerdict(ops, id).None? && !job.notified)
            && (!job.status.Running? ==> FirstVerdict(ops, id) == Some((job.status, job.result)))
            && (!job.notified ==> forall i :: 0 <= i < |ops| ==> id !in DeliveredAt(map[], ops, i))
            && (job.notified ==> exists i :: DeliveredOnlyAt(ops, i, id))
  {
    RowHoldsFirstVerdict(ops, id);
    NotifiedMeansDelivered(ops, id);
    if Run(map[], ops)[id].notified {
      var i :| 0 <= i < |ops| && id in DeliveredAt(map[], ops, i);
      forall j | 0 <= j < |ops| && id in DeliveredAt(map[], ops, j)
        ensures j == i
      {
        if j < i { AtMostOneDrain(map[], ops, j, i, id); }
        if i < j { AtMostOneDrain(map[], ops, i, j, id); }
      }
      assert DeliveredOnlyAt(ops, i, id);
    }
  }

  /** A drain leaves its session owing nothing: every settled report has been handed over. */
  lemma NothingOwedAfterDrain(ops: seq<Op>, id: JobId)
    requires ops != [] && ops[|ops| - 1].Drain?
    requires id in Run(map[], ops)
    requires Run(map[], ops)[id].session == ops[|ops| - 1].session
    requires !Run(map[], ops)[id].status.Running?
    ensures exists i :: 0 <= i < |ops| && id in DeliveredAt(map[], ops, i)
  {
    NotifiedMeansDelivered(ops, id);
  }

  // ---- The SELECT and the UPDATE of a drain, taken apart ------------------------------

  /** What the UPDATE of a drain flags when other operations ran after its SELECT. */
  function SplitFlagged(t: Table, between: seq<Op>, session: string): set<JobId> {
    if Pending(t, session) == {} then {} else Pending(Run(t, between), session)
  }

  /** The operation settles a job of the session, or drains a session that owes reports. */
  ghost predicate Disturbs(t: Table, op: Op, session: string) {
    match op
    case Mark(id, status, _, _) =>
      !status.Running? && id in t && t[id].session == session && t[id].status.Running?
    case Reconcile(_) => exists id :: id in t && t[id].session == session && t[id].status.Running?
    case Drain(other) => other == session && Pending(t, session) != {}
    case _ => false
  }

  ghost predicate Undisturbed(t: Table, between: seq<Op>, session: string) {
    forall i :: 0 <= i < |between| ==> !Disturbs(Run(t, between[..i]), between[i], session)
  }

  /** No running row carries the notified flag. */
  ghost predicate NoEarlyFlag(t: Table) {
    forall id :: id in t && t[id].status.Running? ==> !t[id].notified
  }

  lemma {:induction false} RunsRaiseNoEarlyFlag(t: Table, ops: seq<Op>)
    requires NoEarlyFlag(t)
    ensures NoEarlyFlag(Run(t, ops))
  {
    if ops != [] {
      RunsRaiseNoEarlyFlag(t, ops[..|ops| - 1]);
    }
  }

  /** A row that runs before an operation and is owed after it. */
  ghost predicate FreshlyOwed(t: Table, t': Table, session: string, id: JobId) {
    id in t && t[id].status.Running? && id in Pending(t', session)
  }

  lemma StepKeepsPending(t: Table, op: Op, session: string)
    requires NoEarlyFlag(t)
    ensures !Disturbs(t, op, session) ==> Pending(Apply(t, op), session) == Pending(t, session)
    ensures Disturbs(t, op, session) && !op.Drain? ==>
              exists id :: FreshlyOwed(t, Apply(t, op), session, id)
  {
    if Disturbs(t, op, session) && !op.Drain? {
      var id :| id in t && t[id].session == session && t[id].status.Running?
                && (op.Mark? ==> op.id == id);
      assert FreshlyOwed(t, Apply(t, op), session, id);
    }
  }

  lemma {:induction false} UndisturbedKeepsPending(t: Table, between: seq<Op>, session: string)
    requires NoEarlyFlag(t) && Undisturbed(t, between, session)
    ensures Pending(Run(t, between), session) == Pending(t, session)
  {
    if between != [] {
      var n := |between| - 1;
      var before := between[..n];
      assert forall i :: 0 <= i < n ==> before[..i] == between[..i] && before[i] == between[i];
      UndisturbedKeepsPending(t, before, session);
      RunsRaiseNoEarlyFlag(t, before);
      StepKeepsPending(Run(t, before), between[n], session);
    }
  }

  /** One disturbing operation between the two statements always shows: a report that
      settled there is flagged unseen, or one that was selected is no longer there. */
  lemma DisturbedChangesPending(t: Table, between: seq<Op>, session: string, i: nat)
    requires i < |between| && Disturbs(Run(t, between[..i]), between[i], session)
    requires NoEarlyFlag(t) && Pending(t, session) != {}
    ensures Pending(Run(t, between), session) != Pending(t, session)
  {
    var at, next := Run(t, between[..i]), Run(t, between[..i + 1]);
    assert between[..i + 1][..i] == between[..i];
    assert Later(t, at) by {
      RunIsLater(t, between[..i], 0);
      assert between[..i][..0] == [];
    }
    assert Later(next, Run(t, between)) by { RunIsLater(t, between, i + 1); }
    RunsRaiseNoEarlyFlag(t, between[..i]);
    StepKeepsPending(at, between[i], session);
    if between[i].Drain? {
      var id :| id in Pending(t, session);
      assert id in next && next[id].notified;
    } else {
      var id :| FreshlyOwed(at, next, session, id);
      FreshReportChangesPending(t, between, session, id);
    }
  }

  /** A report that settles in between is flagged unseen, or a drain in between took it and all
      that was selected. */
  lemma FreshReportChangesPending(t: Table, between: seq<Op>, session: string, id: JobId)
    requires NoEarlyFlag(t) && Pending(t, session) != {} && id !in Pending(t, session)
    requires id in t ==> !t[id].notified
    requires id in Run(t, between) && Run(t, between)[id].session == session && !Run(t, between)[id].status.Running?
    ensures Pending(Run(t, between), session) != Pending(t, session)
  {
    if Run(t, between)[id].notified {
      var other :| other in Pending(t, session);
      SomeDrainTookAll(t, between, session, id, other);
    }
  }

  /** If a run flags some job of a session, it drained that session, and so it also
      flagged everything the session owed at the start. */
  lemma {:induction false} SomeDrainTookAll(t: Table, ops: seq<Op>, session: string, id: JobId, owed: JobId)
    requires owed in Pending(t, session)
    requires id in Run(t, ops) && Run(t, ops)[id].session == session && Run(t, ops)[id].notified
    requires id in t ==> !t[id].notified
    ensures owed in Run(t, ops) && Run(t, ops)[owed].notified
  {
    if ops != [] {
      var before := ops[..|ops| - 1];
      RunIsLater(t, before, 0);
      assert before[..0] == [];
      ApplyIsLater(Run(t, before), ops[|ops| - 1]);
      if id in Run(t, before) && Run(t, before)[id].notified {
        SomeDrainTookAll(t, before, session, id, owed);
      } else {
        FlagTakesAll(Run(t, before), ops[|ops| - 1], id, owed);
      }
    }
  }

  /** An operation that flags a job drained its session: everything the session owes is flagged. */
  lemma FlagTakesAll(t: Table, op: Op, id: JobId, owed: JobId)
    requires id in Apply(t, op) && Apply(t, op)[id].notified && !(id in t && t[id].notified)
    requires owed in t && !t[owed].status.Running? && t[owed].session == Apply(t, op)[id].session
    ensures owed in Apply(t, op) && Apply(t, op)[owed].notified
  {
  }

  /** Run as two statements, a drain hands over exactly what it flags if and only if it
      selected nothing, or no job of the session settled, and no other drain of the
      session ran, between the SELECT and the UPDATE. */
  lemma SplitDrainNeedsQuiet(history: seq<Op>, between: seq<Op>, session: string)
    ensures var t := Run(map[], history);
            SplitFlagged(t, between, session) == Pending(t, session)
            <==> Pending(t, session) == {} || Undisturbed(t, between, session)
  {
    var t := Run(map[], history);
    RunsRaiseNoEarlyFlag(map[], history);
    if Pending(t, session) != {} {
      if Undisturbed(t, between, session) {
        UndisturbedKeepsPending(t, between, session);
      } else {
        var i :| 0 <= i < |between| && Disturbs(Run(t, between[..i]), between[i], session);
        DisturbedChangesPending(t, between, session, i);
      }
    }
  }
}
