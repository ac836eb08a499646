/** What a prune keeps, and what pruning again does. */
module RetentionTheorems {
  import opened Wrappers
  import opened CheckpointId
  import opened Retention
  import opened Sets

  // ---- What a prune keeps ---------------------------------------------------------------------------

  lemma PrunedRow(ck: set<Row>, p: Policy, now: real, r: Row)
    ensures r in Pruned(ck, p, now) <==>
            r in ck && !Expired(ck, r.thread, p, now) &&
            r.id in Latest(Ids(ck, r.thread, r.ns), KeepFor(p, r.thread))
  {
    var young := Young(ck, p, now);
    assert r in ck ==> r.thread in Threads(ck);
    if r in young {
      assert Ids(young, r.thread, r.ns) == Ids(ck, r.thread, r.ns);
      assert r.thread in Threads(young);
    }
  }

  /** A write goes exactly when its checkpoint goes; one that has none goes with its thread. */
  lemma WritesFollowTheirCheckpoints(ck: set<Row>, writes: set<Write>, p: Policy, now: real, w: Write)
    requires w in writes
    ensures w in PrunedWrites(ck, writes, p, now) <==>
            if w.row in ck then w.row in Pruned(ck, p, now) else w.row.thread !in Dropped(ck, p, now)
  {
  }

  /** In each namespace of a thread that is not dropped, what survives is exactly the greatest
      ids, as many as the cap allows, the very latest always among them. */
  lemma SurvivorsAreTheLatest(ck: set<Row>, p: Policy, now: real, thread: string, ns: string)
    ensures var ids, left := Ids(ck, thread, ns), Ids(Pruned(ck, p, now), thread, ns);
            if Expired(ck, thread, p, now) then left == {}
            else
              && left == Latest(ids, KeepFor(p, thread))
              && |left| == (if |ids| < KeepFor(p, thread) then |ids| else KeepFor(p, thread))
              && (forall s, d :: s in left && d in ids - left ==> Less(d, s))
              && (ids != {} ==> left != {})
  {
    var ids, left, keep := Ids(ck, thread, ns), Ids(Pruned(ck, p, now), thread, ns), KeepFor(p, thread);
    forall id ensures id in left <==> !Expired(ck, thread, p, now) && id in Latest(ids, keep) {
      PrunedRow(ck, p, now, Row(thread, ns, id));
      if id in ids { assert Row(thread, ns, id) in ck; }
      if id in left { assert Row(thread, ns, id) in Pruned(ck, p, now); }
    }
    if !Expired(ck, thread, p, now) {
      LatestCount(ids, keep);
      forall s, d | s in left && d in ids - left ensures Less(d, s) { LatestAreTheGreatest(ids, keep, s, d); }
    }
  }

  /** The cap each thread gets: background turns their own, if the policy has one, and every other
      thread the plain one; never less than one.  In a namespace of a thread that the age limit, if
      there is one, leaves alone, exactly that many of the greatest ids survive, or all of them. */
  lemma EachThreadKeepsItsCap(ck: set<Row>, p: Policy, now: real, thread: string, ns: string, cap: int)
    requires p.maxAge.Some? ==> !Aged(ck, thread, now - p.maxAge.value)
    requires cap == if p.background.Some? && "a2a:background:" <= thread then p.background.value else p.keep
    ensures var ids, left, most := Ids(ck, thread, ns), Ids(Pruned(ck, p, now), thread, ns), if cap > 1 then cap else 1;
            && left <= ids
            && |left| == (if |ids| < most then |ids| else most)
            && forall s, d :: s in left && d in ids - left ==> Less(d, s)
  {
    SurvivorsAreTheLatest(ck, p, now, thread, ns);
  }

  /** A thread goes whole exactly when there is an age limit, something in it can be dated, and
      nothing in it is dated at the limit or later. */
  lemma WholeThreadsGoByAge(ck: set<Row>, p: Policy, now: real, thread: string)
    requires thread in Threads(ck)
    ensures thread !in Threads(Pruned(ck, p, now)) <==>
            && p.maxAge.Some? && (exists r :: Dated(ck, r, thread))
            && forall r :: Dated(ck, r, thread) ==> UnixSeconds(r.id).value < now - p.maxAge.value
  {
    ThreadSurvives(ck, p, now, thread);
    if p.maxAge.Some? { AgedIsPastEveryDate(ck, thread, now - p.maxAge.value); }
  }

  lemma ThreadSurvives(ck: set<Row>, p: Policy, now: real, thread: string)
    requires thread in Threads(ck)
    ensures thread in Threads(Pruned(ck, p, now)) <==> !Expired(ck, thread, p, now)
  {
    var r :| r in ck && r.thread == thread;
    assert r.id in Ids(ck, thread, r.ns);
    SurvivorsAreTheLatest(ck, p, now, thread, r.ns);
    if !Expired(ck, thread, p, now) {
      var id :| id in Ids(Pruned(ck, p, now), thread, r.ns);
    } else {
      forall s | s in Pruned(ck, p, now) ensures s.thread != thread { PrunedRow(ck, p, now, s); }
    }
  }

  /** The two counts of a prune: the threads that are gone, and the checkpoints gone from the others. */
  lemma CountsAreOfWhatIsGone(ck: set<Row>, p: Policy, now: real)
    ensures var left, young := Pruned(ck, p, now), Young(ck, p, now);
            && Dropped(ck, p, now) == Threads(ck) - Threads(left)
            && Excess(young, Threads(young), p) == set r | r in ck - left && r.thread in Threads(left)
  {
    var left, young := Pruned(ck, p, now), Young(ck, p, now);
    forall t | t in Threads(ck) ensures t in Threads(left) <==> t !in Dropped(ck, p, now) {
      ThreadSurvives(ck, p, now, t);
    }
    forall r | r in ck ensures r.thread in Threads(ck) {}
  }

  /** Capping what is already capped removes nothing. */
  lemma LatestSettles(ids: set<string>, keep: nat)
    ensures Latest(Latest(ids, keep), keep) == Latest(ids, keep)
  {
    forall id | id in Latest(ids, keep) ensures id in Latest(Latest(ids, keep), keep) {
      SubsetIsNoLarger(Greater(Latest(ids, keep), id), Greater(ids, id));
    }
  }

  /** The threads found aged are the ones a prune drops with that age limit. */
  lemma AgedThreadsAreDropped(ck: set<Row>, p: Policy, now: real)
    requires p.maxAge.Some?
    ensures Threads(ck) - Threads(Pruned(ck, p, now)) == AgedThreads(ck, now - p.maxAge.value)
  {
    forall t | t in Threads(ck) ensures t in Threads(Pruned(ck, p, now)) <==> !Expired(ck, t, p, now) {
      ThreadSurvives(ck, p, now, t);
    }
  }

  // ---- The cap and the ages of threads ----------------------------------------------------------

  /** The rows within the cap of their namespace. */
  function LatestRows(ck: set<Row>, p: Policy): set<Row> {
    set r | r in ck && r.id in Latest(Ids(ck, r.thread, r.ns), KeepFor(p, r.thread))
  }

  lemma SurvivorsOfAThread(ck: set<Row>, p: Policy, now: real, thread: string)
    requires !Expired(ck, thread, p, now)
    ensures RowsOf(Pruned(ck, p, now), thread) == RowsOf(LatestRows(ck, p), thread)
  {
    forall r ensures r in RowsOf(Pruned(ck, p, now), thread) <==> r in RowsOf(LatestRows(ck, p), thread) {
      PrunedRow(ck, p, now, r);
    }
  }

  lemma AgedByItsRows(a: set<Row>, b: set<Row>, thread: string, cutoff: real)
    requires RowsOf(a, thread) == RowsOf(b, thread)
    ensures Aged(a, thread, cutoff) <==> Aged(b, thread, cutoff)
  {
    forall r: Row | r.thread == thread ensures r in a <==> r in b {
      assert r in RowsOf(a, thread) <==> r in a;
      assert r in RowsOf(b, thread) <==> r in b;
    }
  }

  predicate Dated(ck: set<Row>, r: Row, thread: string) {
    r in ck && r.thread == thread && UnixSeconds(r.id).Some?
  }

  /** Every date of the thread is matched by one within the cap that is no earlier. */
  ghost predicate KeepsItsDate(ck: set<Row>, p: Policy, thread: string) {
    forall r :: Dated(ck, r, thread) ==>
      exists s :: Dated(LatestRows(ck, p), s, thread) && UnixSeconds(r.id).value <= UnixSeconds(s.id).value
  }

  /** A time past every date of a thread. */
  lemma {:induction false} PastEveryDate(ck: set<Row>, thread: string) returns (end: real)
    ensures forall r :: Dated(ck, r, thread) ==> UnixSeconds(r.id).value < end
    decreases |ck|
  {
    if ck == {} {
      end := 0.0;
    } else {
      var x :| x in ck;
      end := PastEveryDate(ck - {x}, thread);
      var stamp := UnixSeconds(x.id);
      if stamp.Some? && stamp.value >= end { end := stamp.value + 1.0; }
      forall r | Dated(ck, r, thread) ensures UnixSeconds(r.id).value < end {
        if r != x { assert Dated(ck - {x}, r, thread); }
      }
    }
  }

  /** The thread is aged at a cutoff past all of its dates and at none before its latest. */
  lemma AgedIsPastEveryDate(ck: set<Row>, thread: string, cutoff: real)
    ensures Aged(ck, thread, cutoff) <==>
            (exists r :: Dated(ck, r, thread)) &&
            forall r :: Dated(ck, r, thread) ==> UnixSeconds(r.id).value < cutoff
  {
    forall r ensures Dated(ck, r, thread) <==> r in ck && r.thread == thread && UnixSeconds(r.id).Some? {}
    if r :| r in ck && r.thread == thread && UnixSeconds(r.id).Some? { assert Dated(ck, r, thread); }
  }

  lemma SameAgesKeepTheDate(ck: set<Row>, p: Policy, thread: string, r: Row)
    requires forall cutoff :: Aged(LatestRows(ck, p), thread, cutoff) <==> Aged(ck, thread, cutoff)
    requires Dated(ck, r, thread)
    ensures exists s :: Dated(LatestRows(ck, p), s, thread) && UnixSeconds(r.id).value <= UnixSeconds(s.id).value
  {
    var latest, cutoff := LatestRows(ck, p), UnixSeconds(r.id).value;
    var end := PastEveryDate(ck, thread);
    AgedIsPastEveryDate(ck, thread, end);
    AgedIsPastEveryDate(latest, thread, end);
    AgedIsPastEveryDate(ck, thread, cutoff);
    AgedIsPastEveryDate(latest, thread, cutoff);
    assert Aged(ck, thread, end) && !Aged(ck, thread, cutoff);
  }

  function Dates(ck: set<Row>, thread: string): set<real> {
    set r | r in ck && Dated(ck, r, thread) :: UnixSeconds(r.id).value
  }

  lemma AgedByItsDates(ck: set<Row>, thread: string, cutoff: real)
    ensures Aged(ck, thread, cutoff) <==>
            Dates(ck, thread) != {} && forall x :: x in Dates(ck, thread) ==> x < cutoff
  {
    AgedIsPastEveryDate(ck, thread, cutoff);
    forall r | Dated(ck, r, thread) ensures UnixSeconds(r.id).value in Dates(ck, thread) {}
    if x :| x in Dates(ck, thread) { var r :| Dated(ck, r, thread) && UnixSeconds(r.id).value == x; }
  }

  /** A time past the dates within the cap is past all dates of a thread that keeps its date. */
  lemma KeptDatesBound(ck: set<Row>, p: Policy, thread: string, cutoff: real)
    requires KeepsItsDate(ck, p, thread)
    ensures var dates, kept := Dates(ck, thread), Dates(LatestRows(ck, p), thread);
            && kept <= dates && (kept == {} ==> dates == {})
            && ((forall y :: y in kept ==> y < cutoff) ==> forall x :: x in dates ==> x < cutoff)
  {
    var latest := LatestRows(ck, p);
    forall y | y in Dates(latest, thread) ensures y in Dates(ck, thread) {
      var r :| Dated(latest, r, thread) && UnixSeconds(r.id).value == y;
      assert Dated(ck, r, thread);
    }
    forall x | x in Dates(ck, thread)
      ensures Dates(latest, thread) != {}
      ensures (forall y :: y in Dates(latest, thread) ==> y < cutoff) ==> x < cutoff
    {
      var r :| Dated(ck, r, thread) && UnixSeconds(r.id).value == x;
      var s :| Dated(latest, s, thread) && UnixSeconds(r.id).value <= UnixSeconds(s.id).value;
      assert UnixSeconds(s.id).value in Dates(latest, thread);
    }
  }

  lemma KeptDateSameAges(ck: set<Row>, p: Policy, thread: string, cutoff: real)
    requires KeepsItsDate(ck, p, thread)
    ensures Aged(LatestRows(ck, p), thread, cutoff) <==> Aged(ck, thread, cutoff)
  {
    KeptDatesBound(ck, p, thread, cutoff);
    AgedByItsDates(ck, thread, cutoff);
    AgedByItsDates(LatestRows(ck, p), thread, cutoff);
  }

  /** The cap leaves a thread's age as it was, for every cutoff, exactly when each date of the
      thread is matched by one within the cap that is no earlier. */
  lemma CapKeepsAges(ck: set<Row>, p: Policy, now: real, thread: string)
    requires !Expired(ck, thread, p, now)
    ensures (forall cutoff :: Aged(Pruned(ck, p, now), thread, cutoff) <==> Aged(ck, thread, cutoff)) <==>
            KeepsItsDate(ck, p, thread)
  {
    SurvivorsOfAThread(ck, p, now, thread);
    forall cutoff
      ensures Aged(Pruned(ck, p, now), thread, cutoff) <==> Aged(LatestRows(ck, p), thread, cutoff)
    {
      AgedByItsRows(Pruned(ck, p, now), LatestRows(ck, p), thread, cutoff);
    }
    if forall cutoff :: Aged(Pruned(ck, p, now), thread, cutoff) <==> Aged(ck, thread, cutoff) {
      forall r | Dated(ck, r, thread)
        ensures exists s :: Dated(LatestRows(ck, p), s, thread) && UnixSeconds(r.id).value <= UnixSeconds(s.id).value
      {
        SameAgesKeepTheDate(ck, p, thread, r);
      }
    }
    if KeepsItsDate(ck, p, thread) {
      forall cutoff ensures Aged(LatestRows(ck, p), thread, cutoff) <==> Aged(ck, thread, cutoff) {
        KeptDateSameAges(ck, p, thread, cutoff);
      }
    }
  }

  // ---- Pruning again ---------------------------------------------------------------------------------

  /** A thread within the age limit that its cap alone takes past it. */
  ghost predicate TurnsAged(ck: set<Row>, p: Policy, now: real, thread: string) {
    p.maxAge.Some? && !Aged(ck, thread, now - p.maxAge.value) && Aged(LatestRows(ck, p), thread, now - p.maxAge.value)
  }

  ghost function TurnedThreads(ck: set<Row>, p: Policy, now: real): set<string> {
    set t | t in Threads(ck) && TurnsAged(ck, p, now, t)
  }

  /** The threads a second prune at the same time drops are those the first one turned aged. */
  lemma DroppedNext(ck: set<Row>, p: Policy, now: real)
    ensures Dropped(Pruned(ck, p, now), p, now) == TurnedThreads(ck, p, now)
  {
    var left := Pruned(ck, p, now);
    if p.maxAge.Some? {
      var cutoff := now - p.maxAge.value;
      forall t ensures t in AgedThreads(left, cutoff) <==> t in TurnedThreads(ck, p, now) {
        if Expired(ck, t, p, now) {
          forall r | r in left ensures r.thread != t { PrunedRow(ck, p, now, r); }
        } else {
          SurvivorsOfAThread(ck, p, now, t);
          AgedByItsRows(left, LatestRows(ck, p), t, cutoff);
          if Aged(left, t, cutoff) {
            var r :| r in left && r.thread == t;
            PrunedRow(ck, p, now, r);
          }
        }
      }
    }
  }

  /** The survivors of a prune are all within their caps. */
  lemma NoExcessLeft(ck: set<Row>, p: Policy, now: real, r: Row)
    requires r in Pruned(ck, p, now)
    ensures r.id in Latest(Ids(Pruned(ck, p, now), r.thread, r.ns), KeepFor(p, r.thread))
  {
    PrunedRow(ck, p, now, r);
    SurvivorsAreTheLatest(ck, p, now, r.thread, r.ns);
    LatestSettles(Ids(ck, r.thread, r.ns), KeepFor(p, r.thread));
    assert r.id in Ids(Pruned(ck, p, now), r.thread, r.ns);
  }

  /** A second prune at the same time caps nothing more: from both tables it drops whole threads,
      exactly the ones the first prune's cap turned aged. */
  lemma SecondPruneDropsTurnedThreads(ck: set<Row>, writes: set<Write>, p: Policy, now: real)
    ensures var left, kept := Pruned(ck, p, now), PrunedWrites(ck, writes, p, now);
            && Pruned(left, p, now) == WithoutThreads(left, TurnedThreads(ck, p, now))
            && PrunedWrites(left, kept, p, now) == WritesWithoutThreads(kept, TurnedThreads(ck, p, now))
  {
    var left, kept := Pruned(ck, p, now), PrunedWrites(ck, writes, p, now);
    DroppedNext(ck, p, now);
    var young := Young(left, p, now);
    forall r | r in young ensures r !in Excess(young, Threads(young), p) {
      NoExcessLeft(ck, p, now, r);
      assert Ids(young, r.thread, r.ns) == Ids(left, r.thread, r.ns);
    }
    assert Excess(young, Threads(young), p) == {};
  }

  lemma TurnedThreadsHaveRows(ck: set<Row>, p: Policy, now: real)
    ensures forall t :: t in TurnedThreads(ck, p, now) ==> exists r :: r in Pruned(ck, p, now) && r.thread == t
  {
    forall t | t in TurnedThreads(ck, p, now) ensures exists r :: r in Pruned(ck, p, now) && r.thread == t {
      SurvivorsOfAThread(ck, p, now, t);
      var r :| r in LatestRows(ck, p) && r.thread == t;
      assert r in RowsOf(LatestRows(ck, p), t);
    }
  }

  lemma NoneTurned(ck: set<Row>, p: Policy, now: real)
    ensures TurnedThreads(ck, p, now) == {} <==> forall t :: t in Threads(ck) ==> !TurnsAged(ck, p, now, t)
  {
    forall t ensures t in TurnedThreads(ck, p, now) <==> t in Threads(ck) && TurnsAged(ck, p, now, t) {}
  }

  /** Dropping threads that have rows changes the rows unless there are none to drop. */
  lemma DroppingChanges(rows: set<Row>, writes: set<Write>, gone: set<string>)
    requires forall t :: t in gone ==> exists r :: r in rows && r.thread == t
    ensures WithoutThreads(rows, gone) == rows <==> gone == {}
    ensures gone == {} ==> WritesWithoutThreads(writes, gone) == writes
  {
    NothingDropped(rows, writes);
    if t :| t in gone {
      var r :| r in rows && r.thread == t;
      assert r !in WithoutThreads(rows, gone);
    }
  }

  /** Pruning again at the same time changes nothing, in either table, exactly when the cap turned
      no thread aged. */
  lemma PruneTwice(ck: set<Row>, writes: set<Write>, p: Policy, now: real)
    ensures var left, kept := Pruned(ck, p, now), PrunedWrites(ck, writes, p, now);
            && (Pruned(left, p, now) == left <==> forall t :: t in Threads(ck) ==> !TurnsAged(ck, p, now, t))
            && (Pruned(left, p, now) == left ==> PrunedWrites(left, kept, p, now) == kept)
  {
    SecondPruneDropsTurnedThreads(ck, writes, p, now);
    NoneTurned(ck, p, now);
    TurnedThreadsHaveRows(ck, p, now);
    DroppingChanges(Pruned(ck, p, now), PrunedWrites(ck, writes, p, now), TurnedThreads(ck, p, now));
  }

  // ---- Ids in date order -----------------------------------------------------------------------------

  /** Within each namespace, every id after a dated one is dated and no earlier. */
  ghost predicate DateOrdered(ck: set<Row>, thread: string) {
    forall r, s :: r in ck && s in ck && r.thread == thread && s.thread == thread && r.ns == s.ns &&
                   UnixSeconds(r.id).Some? && Less(r.id, s.id) ==>
      UnixSeconds(s.id).Some? && UnixSeconds(r.id).value <= UnixSeconds(s.id).value
  }

  lemma CanonicalIdsAreDateOrdered(ck: set<Row>, thread: string)
    requires forall r :: r in ck && r.thread == thread ==> Canonical(r.id)
    ensures DateOrdered(ck, thread)
  {
    forall r, s | r in ck && s in ck && r.thread == thread && s.thread == thread && Less(r.id, s.id)
      ensures UnixSeconds(s.id).Some? && UnixSeconds(r.id).Some? && UnixSeconds(r.id).value <= UnixSeconds(s.id).value
    {
      IdOrderIsTimeOrder(r.id, s.id);
    }
  }

  /** Where ids are in date order a thread keeps its date: the greatest id of a namespace is within
      the cap. */
  lemma DateOrderKeepsTheDate(ck: set<Row>, p: Policy, thread: string)
    requires DateOrdered(ck, thread)
    ensures KeepsItsDate(ck, p, thread)
  {
    forall r | Dated(ck, r, thread)
      ensures exists s :: Dated(LatestRows(ck, p), s, thread) && UnixSeconds(r.id).value <= UnixSeconds(s.id).value
    {
      var ids := Ids(ck, r.thread, r.ns);
      assert r.id in ids;
      var m := HasGreatest(ids);
      var s := Row(r.thread, r.ns, m);
      forall x | x in ids ensures !Less(m, x) { LessIsTotal(m, x); LessIsTotal(m, m); }
      assert Greater(ids, m) == {};
      assert s in ck && s in LatestRows(ck, p);
      assert Dated(LatestRows(ck, p), s, thread);
    }
  }

  /** So with canonical ids the cap changes no thread's age and a second prune nothing at all. */
  lemma CanonicalPruneTwice(ck: set<Row>, writes: set<Write>, p: Policy, now: real)
    requires forall r :: r in ck ==> Canonical(r.id)
    ensures var left, kept := Pruned(ck, p, now), PrunedWrites(ck, writes, p, now);
            Pruned(left, p, now) == left && PrunedWrites(left, kept, p, now) == kept
    ensures forall t, cutoff :: !Expired(ck, t, p, now) ==>
              (Aged(Pruned(ck, p, now), t, cutoff) <==> Aged(ck, t, cutoff))
  {
    PruneTwice(ck, writes, p, now);
    forall t, cutoff
      ensures !TurnsAged(ck, p, now, t)
      ensures !Expired(ck, t, p, now) ==> (Aged(Pruned(ck, p, now), t, cutoff) <==> Aged(ck, t, cutoff))
    {
      CanonicalIdsAreDateOrdered(ck, t);
      DateOrderKeepsTheDate(ck, p, t);
      if p.maxAge.Some? { KeptDateSameAges(ck, p, t, now - p.maxAge.value); }
      if !Expired(ck, t, p, now) { CapKeepsAges(ck, p, now, t); }
    }
  }

  /** Two rows of one namespace, the greater id dated earlier: the cap of one keeps it alone. */
  lemma CapKeepsTheGreaterId(late: Row, early: Row, p: Policy, now: real)
    requires late.thread == early.thread && late.ns == early.ns && Less(late.id, early.id)
    requires KeepFor(p, late.thread) == 1
    requires !Expired({late, early}, late.thread, p, now)
    ensures Pruned({late, early}, p, now) == {early}
  {
    var ck := {late, early};
    LessIsTotal(late.id, early.id);
    LessIsTotal(early.id, early.id);
    assert late in ck && early in ck;
    var ids := Ids(ck, late.thread, late.ns);
    assert ids == {late.id, early.id};
    assert early.id in Greater(ids, late.id) && Greater(ids, early.id) == {};
    PrunedRow(ck, p, now, late);
    PrunedRow(ck, p, now, early);
    forall r | r in Pruned(ck, p, now) ensures r == early { PrunedRow(ck, p, now, r); }
  }

  /** With ids in mixed case the cap can remove the latest date and leave a thread aged, which a
      second prune then drops whole. */
  lemma CapCanAgeAThread()
    ensures exists ck, p, now :: Pruned(Pruned(ck, p, now), p, now) != Pruned(ck, p, now)
  {
    var a, b := MixedCaseBreaksOrder();
    var late, early, now := Row("thread", "", a), Row("thread", "", b), UnixSeconds(a).value;
    var p := Policy(1, None, Some(0.0));
    assert late in {late, early} && !Aged({late, early}, "thread", now);
    CapKeepsTheGreaterId(late, early, p, now);
    assert early in {early} && Aged({early}, "thread", now);
    PrunedRow({early}, p, now, early);
  }
}
