/** Every field of a row of the job table, read off the history of operations alone. */
module JobHistory {
  import opened Wrappers
  import opened JobTable
  import opened ExactlyOnce

  lemma WasCreatedSnoc(ops: seq<Op>, id: JobId)
    requires ops != []
    ensures var n := |ops| - 1;
            WasCreated(ops, id) <==> WasCreated(ops[..n], id) || (ops[n].Create? && ops[n].id == id)
  {
    var n := |ops| - 1;
    assert forall i :: 0 <= i < n ==> ops[i] == ops[..n][i];
  }

  /** A row keeps what it was created with; a blank batch key is no key. */
  lemma RowKeepsItsCreation(ops: seq<Op>, i: nat, id: JobId)
    requires i < |ops| && ops[i].Create? && ops[i].id == id && !WasCreated(ops[..i], id)
    ensures id in Run(map[], ops)
    ensures var job := Run(map[], ops)[id];
            && job.session == ops[i].session && job.deterministic == ops[i].deterministic
            && job.batch == if ops[i].batch == Some("") then None else ops[i].batch
  {
    RowHoldsFirstVerdict(ops[..i], id);
    assert ops[..i + 1][..i] == ops[..i];
    RunIsLater(map[], ops, i + 1);
  }

  /** The first verdict passed on a created row is the row's for good: what a mark says, at its time,
      or a failure with the interruption text. */
  lemma FirstVerdictSticks(ops: seq<Op>, i: nat, id: JobId)
    requires i < |ops| && WasCreated(ops[..i], id) && FirstVerdict(ops[..i], id).None?
    requires ops[i].Reconcile? || (ops[i].Mark? && ops[i].id == id && !ops[i].status.Running?)
    ensures id in Run(map[], ops)
    ensures var job := Run(map[], ops)[id];
            if ops[i].Mark?
            then job.status == ops[i].status && job.result == ops[i].result && job.completedAt == ops[i].at
            else job.status.Failed? && job.completedAt == ops[i].at
                 && job.result == "Interrupted — the background turn did not complete before a restart."
  {
    RowHoldsFirstVerdict(ops[..i], id);
    assert ops[..i + 1][..i] == ops[..i];
    RunIsLater(map[], ops, i + 1);
  }

  /** The first handle announced for a created row, if it was not blank. */
  function FirstHandle(ops: seq<Op>, id: JobId): string {
    if ops == [] then "" else
    var before, op := ops[..|ops| - 1], ops[|ops| - 1];
    var earlier := FirstHandle(before, id);
    if earlier != "" || !WasCreated(before, id) then earlier
    else if op.Announce? && op.id == id then op.taskId else ""
  }

  /** An announcement fills a blank handle, and no other. */
  lemma {:induction false} RowHoldsFirstHandle(ops: seq<Op>, id: JobId)
    requires WasCreated(ops, id)
    ensures id in Run(map[], ops) && Run(map[], ops)[id].taskId == FirstHandle(ops, id)
  {
    var before := ops[..|ops| - 1];
    WasCreatedSnoc(ops, id);
    RowHoldsFirstVerdict(before, id);
    if WasCreated(before, id) {
      RowHoldsFirstHandle(before, id);
    } else {
      NoHandleBeforeCreation(before, id);
    }
  }

  lemma {:induction false} NoHandleBeforeCreation(ops: seq<Op>, id: JobId)
    requires !WasCreated(ops, id)
    ensures FirstHandle(ops, id) == ""
  {
    if ops != [] {
      WasCreatedSnoc(ops, id);
      NoHandleBeforeCreation(ops[..|ops| - 1], id);
    }
  }

  /** Operation `i` dismisses the job: it names the job, or its session, or all, and the job has
      settled by then. */
  predicate DismissesAt(ops: seq<Op>, i: nat, id: JobId, session: string)
    requires i < |ops|
  {
    && (ops[i] == Dismiss(id)
        || (ops[i].DismissFinished? && (ops[i].scope.None? || ops[i].scope.value == session)))
    && FirstVerdict(ops[..i], id).Some?
  }

  /** A row is dismissed exactly when some operation of the history dismissed it. */
  lemma {:induction false} DismissedMeansDismissed(ops: seq<Op>, id: JobId)
    requires id in Run(map[], ops)
    ensures Run(map[], ops)[id].dismissed <==>
            exists i :: 0 <= i < |ops| && DismissesAt(ops, i, id, Run(map[], ops)[id].session)
  {
    var n, before := |ops| - 1, ops[..|ops| - 1];
    var t, session := Run(map[], before), Run(map[], ops)[id].session;
    RowHoldsFirstVerdict(before, id);
    forall i | 0 <= i < n ensures DismissesAt(ops, i, id, session) <==> DismissesAt(before, i, id, session) {
      assert before[..i] == ops[..i];
    }
    if id in t {
      ApplyIsLater(t, ops[n]);
      DismissedMeansDismissed(before, id);
      DismissalTakesEffect(t, ops[n], id);
      assert Run(map[], ops)[id].dismissed <==> t[id].dismissed || DismissesAt(ops, n, id, session);
    } else {
      NoVerdictBeforeCreation(before, id);
    }
  }

  lemma DismissalTakesEffect(t: Table, op: Op, id: JobId)
    requires id in t
    ensures Apply(t, op)[id].dismissed <==>
            || t[id].dismissed
            || (!t[id].status.Running?
                && (op == Dismiss(id)
                    || (op.DismissFinished? && (op.scope.None? || op.scope.value == t[id].session))))
  {
  }

  lemma NoVerdictBeforeCreation(ops: seq<Op>, id: JobId)
    requires id !in Run(map[], ops)
    ensures forall i :: 0 <= i <= |ops| ==> FirstVerdict(ops[..i], id).None?
  {
    forall i | 0 <= i <= |ops| ensures FirstVerdict(ops[..i], id).None? {
      RowHoldsFirstVerdict(ops, id);
      RowHoldsFirstVerdict(ops[..i], id);
      forall k | 0 <= k < i ensures ops[..i][k] == ops[k] {}
    }
  }

  /** A drain returns a job if and only if it drains the job's session, some verdict has been passed
      on the job, and no earlier drain returned it. */
  lemma DrainReturnsWhatIsOwed(ops: seq<Op>, i: nat, id: JobId)
    requires i < |ops| && WasCreated(ops[..i], id)
    ensures id in Run(map[], ops[..i])
    ensures id in DeliveredAt(map[], ops, i) <==>
            && ops[i] == Drain(Run(map[], ops[..i])[id].session)
            && FirstVerdict(ops[..i], id).Some?
            && forall j :: 0 <= j < i ==> id !in DeliveredAt(map[], ops, j)
  {
    RowHoldsFirstVerdict(ops[..i], id);
    NotifiedMeansDelivered(ops[..i], id);
    forall j | 0 <= j < i ensures DeliveredAt(map[], ops[..i], j) == DeliveredAt(map[], ops, j) {
      assert ops[..i][..j] == ops[..j];
    }
  }
}
