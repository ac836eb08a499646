/** Pruning the checkpoint database: idle threads go whole, every other thread keeps its latest
    checkpoints in each namespace. */
module Retention {
  import opened Wrappers
  import opened CheckpointId
  import opened Sets

  datatype Row = Row(thread: string, ns: string, id: string)

  /** A pending write belongs to the checkpoint of the same key. */
  datatype Write = Write(row: Row, idx: nat)

  datatype Policy = Policy(keep: int, background: Option<int>, maxAge: Option<real>)

  const BACKGROUND := "a2a:background:"

  /** At least the latest checkpoint is always kept. */
  function KeepFor(p: Policy, thread: string): nat {
    var n := if p.background.Some? && BACKGROUND <= thread then p.background.value else p.keep;
    if n < 1 then 1 else n
  }

  // ---- Age -------------------------------------------------------------------------------------

  /** Something in the thread can be dated, and nothing that can is at or past the cutoff. */
  ghost predicate Aged(ck: set<Row>, thread: string, cutoff: real) {
    && (exists r :: r in ck && r.thread == thread && UnixSeconds(r.id).Some?)
    && (forall r :: r in ck && r.thread == thread && UnixSeconds(r.id).Some? ==> UnixSeconds(r.id).value < cutoff)
  }

  function Threads(ck: set<Row>): set<string> {
    set r | r in ck :: r.thread
  }

  ghost function AgedThreads(ck: set<Row>, cutoff: real): set<string> {
    set t | t in Threads(ck) && Aged(ck, t, cutoff)
  }

  function RowsOf(ck: set<Row>, thread: string): set<Row> {
    set r | r in ck && r.thread == thread
  }

  method IsAged(ck: set<Row>, thread: string, cutoff: real) returns (aged: bool)
    ensures aged <==> Aged(ck, thread, cutoff)
  {
    var newest: Option<real>, todo := None, RowsOf(ck, thread);
    while todo != {}
      invariant todo <= RowsOf(ck, thread)
      invariant newest.None? ==> forall r :: r in RowsOf(ck, thread) - todo ==> UnixSeconds(r.id).None?
      invariant newest.Some? ==> exists r :: r in RowsOf(ck, thread) - todo && UnixSeconds(r.id) == newest
      invariant newest.Some? ==> forall r :: r in RowsOf(ck, thread) - todo && UnixSeconds(r.id).Some? ==>
                                   UnixSeconds(r.id).value <= newest.value
      decreases todo
    {
      var r :| r in todo;
      var stamp := UnixSeconds(r.id);
      if stamp.Some? && (newest.None? || newest.value < stamp.value) {
        newest := stamp;
      }
      todo := todo - {r};
    }
    assert forall r :: r in RowsOf(ck, thread) <==> r in ck && r.thread == thread;
    aged := newest.Some? && newest.value < cutoff;
  }

  // ---- The cap ---------------------------------------------------------------------------------------

  function Ids(ck: set<Row>, thread: string, ns: string): set<string> {
    set r | r in ck && r.thread == thread && r.ns == ns :: r.id
  }

  function Greater(ids: set<string>, id: string): set<string> {
    set x | x in ids && Less(id, x)
  }

  /** The ids with fewer than that many greater ones. */
  function Latest(ids: set<string>, keep: nat): set<string> {
    set id | id in ids && |Greater(ids, id)| < keep
  }

  lemma {:induction false} HasGreatest(ids: set<string>) returns (m: string)
    requires ids != {}
    ensures m in ids && forall x :: x in ids ==> x == m || Less(x, m)
    decreases |ids|
  {
    m :| m in ids;
    var rest := ids - {m};
    if rest != {} {
      var n := HasGreatest(rest);
      LessIsTotal(m, n);
      if Less(m, n) {
        m := n;
      } else {
        forall x | x in rest && x != n ensures Less(x, m) { LessIsTotal(x, n); LessIsTransitive(x, n, m); }
      }
    }
  }

  /** Taking the greatest id away uses up one of the places. */
  lemma LatestStep(ids: set<string>, m: string, keep: nat)
    requires m in ids && (forall x :: x in ids ==> x == m || Less(x, m)) && keep > 0
    ensures Latest(ids, keep) == {m} + Latest(ids - {m}, keep - 1) && m !in Latest(ids - {m}, keep - 1)
  {
    forall x | x in ids && x != m ensures Greater(ids, x) == Greater(ids - {m}, x) + {m} {}
    forall x | x in ids ensures !Less(m, x) { LessIsTotal(m, x); LessIsTotal(m, m); }
    assert Greater(ids, m) == {};
  }

  lemma NoneLatest(ids: set<string>, keep: nat)
    requires keep == 0 || ids == {}
    ensures Latest(ids, keep) == {}
  {
  }

  lemma TakeOne(ids: set<string>, rest: set<string>, m: string, keep: nat)
    requires rest <= ids && m in rest && (forall x :: x in rest ==> x == m || Less(x, m)) && keep > 0
    ensures (ids - rest) + Latest(rest, keep) == (ids - (rest - {m})) + Latest(rest - {m}, keep - 1)
    ensures |rest - {m}| + 1 == |rest|
  {
    LatestStep(rest, m, keep);
  }

  /** The survivors are the greatest ids taken one at a time until the places or the ids run out. */
  lemma LatestTaken(ids: set<string>, keep: nat) returns (rest: set<string>, taken: nat)
    ensures rest <= ids && Latest(ids, keep) == ids - rest && |rest| + taken == |ids|
    ensures taken <= keep && (taken == keep || rest == {})
  {
    rest, taken := ids, 0;
    while taken < keep && rest != {}
      invariant rest <= ids && taken <= keep && |rest| + taken == |ids|
      invariant Latest(ids, keep) == (ids - rest) + Latest(rest, keep - taken)
    {
      var m := HasGreatest(rest);
      TakeOne(ids, rest, m, keep - taken);
      rest, taken := rest - {m}, taken + 1;
    }
    NoneLatest(rest, keep - taken);
  }

  /** Exactly that many survive, or all if there are no more. */
  lemma LatestCount(ids: set<string>, keep: nat)
    ensures |Latest(ids, keep)| == if |ids| < keep then |ids| else keep
  {
    var rest, taken := LatestTaken(ids, keep);
    assert ids == rest + (ids - rest);
  }

  /** Every id that survives is greater than every id that does not. */
  lemma LatestAreTheGreatest(ids: set<string>, keep: nat, s: string, d: string)
    requires s in Latest(ids, keep) && d in ids - Latest(ids, keep)
    ensures Less(d, s)
  {
    LessIsTotal(s, d);
    if Less(s, d) {
      forall x | x in Greater(ids, d) ensures x in Greater(ids, s) { LessIsTransitive(s, d, x); }
      SubsetIsNoLarger(Greater(ids, d), Greater(ids, s));
    }
  }

  /** Skips the greatest ids, one at a time, and returns the rest. */
  method Beyond(ids: set<string>, keep: nat) returns (stale: set<string>)
    ensures stale == ids - Latest(ids, keep)
  {
    stale := ids;
    var i := 0;
    while i < keep && stale != {}
      invariant 0 <= i <= keep && stale <= ids
      invariant Latest(ids, keep) == (ids - stale) + Latest(stale, keep - i)
    {
      ghost var g := HasGreatest(stale);
      var m :| m in stale && forall x :: x in stale ==> x == m || Less(x, m);
      LatestStep(stale, m, keep - i);
      stale := stale - {m};
      i := i + 1;
    }
    assert Latest(stale, keep - i) == {};
  }

  predicate Stale(ck: set<Row>, r: Row, keep: nat) {
    r in ck && r.id !in Latest(Ids(ck, r.thread, r.ns), keep)
  }

  function StaleIn(ck: set<Row>, thread: string, spaces: set<string>, keep: nat): set<Row> {
    set r | r in ck && r.thread == thread && r.ns in spaces && Stale(ck, r, keep)
  }

  function Namespaces(ck: set<Row>, thread: string): set<string> {
    set r | r in ck && r.thread == thread :: r.ns
  }

  lemma StaleInOneMore(ck: set<Row>, thread: string, spaces: set<string>, ns: string, keep: nat)
    requires ns !in spaces
    ensures StaleIn(ck, thread, spaces + {ns}, keep) ==
            StaleIn(ck, thread, spaces, keep) + StaleIn(ck, thread, {ns}, keep)
    ensures StaleIn(ck, thread, spaces, keep) !! StaleIn(ck, thread, {ns}, keep)
    ensures StaleIn(ck - StaleIn(ck, thread, spaces, keep), thread, {ns}, keep) == StaleIn(ck, thread, {ns}, keep)
  {
    var done := StaleIn(ck, thread, spaces, keep);
    assert Ids(ck - done, thread, ns) == Ids(ck, thread, ns);
  }

  lemma WithoutBoth(writes: set<Write>, a: set<Row>, b: set<Row>)
    ensures WritesWithout(WritesWithout(writes, a), b) == WritesWithout(writes, a + b)
  {
  }

  // ---- One prune -------------------------------------------------------------------------------------

  /** The threads the age limit drops, if there is one. */
  ghost predicate Expired(ck: set<Row>, thread: string, p: Policy, now: real) {
    p.maxAge.Some? && Aged(ck, thread, now - p.maxAge.value)
  }

  ghost function Dropped(ck: set<Row>, p: Policy, now: real): set<string> {
    if p.maxAge.Some? then AgedThreads(ck, now - p.maxAge.value) else {}
  }

  function WithoutThreads(ck: set<Row>, threads: set<string>): set<Row> {
    set r | r in ck && r.thread !in threads
  }

  function WritesWithoutThreads(writes: set<Write>, threads: set<string>): set<Write> {
    set w | w in writes && w.row.thread !in threads
  }

  ghost function Young(ck: set<Row>, p: Policy, now: real): set<Row> {
    WithoutThreads(ck, Dropped(ck, p, now))
  }

  lemma DropOneMore(ck: set<Row>, writes: set<Write>, dropped: set<string>, more: set<string>)
    ensures WithoutThreads(WithoutThreads(ck, dropped), more) == WithoutThreads(ck, dropped + more)
    ensures WritesWithoutThreads(WritesWithoutThreads(writes, dropped), more) ==
            WritesWithoutThreads(writes, dropped + more)
  {
  }

  lemma AgedWithout(ck: set<Row>, dropped: set<string>, thread: string, cutoff: real)
    requires thread !in dropped
    ensures Aged(WithoutThreads(ck, dropped), thread, cutoff) <==> Aged(ck, thread, cutoff)
  {
  }

  lemma AgedIn(ck: set<Row>, t: string, cutoff: real)
    requires t in Threads(ck)
    ensures t in AgedThreads(ck, cutoff) <==> Aged(ck, t, cutoff)
  {
  }

  lemma NothingDropped(ck: set<Row>, writes: set<Write>)
    ensures WithoutThreads(ck, {}) == ck && WritesWithoutThreads(writes, {}) == writes
  {
  }

  lemma ThreadsLeft(ck: set<Row>, dropped: set<string>)
    ensures Threads(WithoutThreads(ck, dropped)) == Threads(ck) - dropped
  {
  }

  /** The checkpoints of some threads beyond what each namespace keeps. */
  function Excess(ck: set<Row>, threads: set<string>, p: Policy): set<Row> {
    set r | r in ck && r.thread in threads && Stale(ck, r, KeepFor(p, r.thread))
  }

  ghost function Pruned(ck: set<Row>, p: Policy, now: real): set<Row> {
    var young := Young(ck, p, now);
    young - Excess(young, Threads(young), p)
  }

  ghost function PrunedWrites(ck: set<Row>, writes: set<Write>, p: Policy, now: real): set<Write> {
    var young := Young(ck, p, now);
    WritesWithout(WritesWithoutThreads(writes, Dropped(ck, p, now)), Excess(young, Threads(young), p))
  }

  lemma ExcessOneMore(ck: set<Row>, threads: set<string>, t: string, p: Policy)
    requires t !in threads
    ensures var gone, keep := Excess(ck, threads, p), KeepFor(p, t);
            var more := StaleIn(ck, t, Namespaces(ck, t), keep);
            && Excess(ck, threads + {t}, p) == gone + more && gone !! more
            && StaleIn(ck - gone, t, Namespaces(ck - gone, t), keep) == more
  {
    var gone, keep := Excess(ck, threads, p), KeepFor(p, t);
    var more := StaleIn(ck, t, Namespaces(ck, t), keep);
    forall r | r in ck && r.thread == t ensures Ids(ck - gone, t, r.ns) == Ids(ck, t, r.ns) {}
    assert Namespaces(ck - gone, t) == Namespaces(ck, t);
    assert forall r :: r in ck && r.thread == t ==> r.ns in Namespaces(ck, t);
  }

  // ---- The database ---------------------------------------------------------------------------------

  function WritesWithout(writes: set<Write>, gone: set<Row>): set<Write> {
    set w | w in writes && w.row !in gone
  }

  function RowsAt(thread: string, ns: string, ids: set<string>): set<Row> {
    set id | id in ids :: Row(thread, ns, id)
  }

  lemma RowsAtOneLess(thread: string, ns: string, ids: set<string>, id: string)
    requires id in ids
    ensures RowsAt(thread, ns, ids) == {Row(thread, ns, id)} + RowsAt(thread, ns, ids - {id})
    ensures Row(thread, ns, id) !in RowsAt(thread, ns, ids - {id})
  {
  }

  /** Some of the rows to go are gone; the rest are still there. */
  predicate Deleting(gone: set<Row>, done: set<Row>, rest: set<Row>) {
    done !! rest && gone == done + rest
  }

  lemma DeleteOne(ck: set<Row>, gone: set<Row>, done: set<Row>, rest: set<Row>, less: set<Row>, row: Row)
    requires Deleting(gone, done, rest) && rest == {row} + less && row !in less
    ensures Deleting(gone, done + {row}, less) && |done + {row}| == |done| + 1
    ensures ck - done - {row} == ck - (done + {row})
  {
  }

  lemma StaleRows(ck: set<Row>, thread: string, ns: string, keep: nat)
    ensures StaleIn(ck, thread, {ns}, keep) ==
            RowsAt(thread, ns, Ids(ck, thread, ns) - Latest(Ids(ck, thread, ns), keep))
  {
    var ids := Ids(ck, thread, ns);
    forall r | r in StaleIn(ck, thread, {ns}, keep) ensures r in RowsAt(thread, ns, ids - Latest(ids, keep)) {
      assert r == Row(thread, ns, r.id) && r.id in ids;
    }
  }

  /** Of all the threads, those to be dropped among the ones looked at so far are dropped. */
  predicate Sifted(all: set<string>, aged: set<string>, dropped: set<string>, todo: set<string>, left: set<string>) {
    todo <= left && left == all - dropped && dropped <= aged <= dropped + todo
  }

  lemma Sift(all: set<string>, aged: set<string>, dropped: set<string>, todo: set<string>, left: set<string>, t: string)
    requires Sifted(all, aged, dropped, todo, left) && t in todo
    ensures if t in aged then Sifted(all, aged, dropped + {t}, todo - {t}, left - {t})
            else Sifted(all, aged, dropped, todo - {t}, left)
    ensures t in all && t !in dropped && |dropped + {t}| == |dropped| + 1 && dropped + {} == dropped
  {
  }

  class CheckpointDb {
    var checkpoints: set<Row>
    var writes: set<Write>

    method FindAgedThreads(maxAge: real, now: real) returns (aged: set<string>)
      ensures aged == AgedThreads(checkpoints, now - maxAge)
    {
      aged := {};
      var todo := Threads(checkpoints);
      while todo != {}
        invariant todo <= Threads(checkpoints)
        invariant aged == set t | t in AgedThreads(checkpoints, now - maxAge) && t !in todo
        decreases todo
      {
        var t :| t in todo;
        var isOld := IsAged(checkpoints, t, now - maxAge);
        if isOld {
          aged := aged + {t};
        }
        todo := todo - {t};
      }
    }

    /** Deletes one checkpoint, and its writes. */
    method DeleteCheckpoint(row: Row)
      modifies this
      ensures checkpoints == old(checkpoints) - {row}
      ensures writes == WritesWithout(old(writes), {row})
    {
      checkpoints := checkpoints - {row};
      writes := set w | w in writes && w.row != row;
    }

    /** Deletes the checkpoints of one namespace beyond its latest, and their writes. */
    method CapNamespace(thread: string, ns: string, keep: nat) returns (deleted: nat)
      modifies this
      ensures var gone := StaleIn(old(checkpoints), thread, {ns}, keep);
              && checkpoints == old(checkpoints) - gone
              && writes == WritesWithout(old(writes), gone) && deleted == |gone|
    {
      var stale := Beyond(Ids(checkpoints, thread, ns), keep);
      ghost var gone, done: set<Row> := RowsAt(thread, ns, stale), {};
      StaleRows(checkpoints, thread, ns, keep);
      deleted := 0;
      assert WritesWithout(writes, {}) == writes;
      while stale != {}
        invariant Deleting(gone, done, RowsAt(thread, ns, stale))
        invariant checkpoints == old(checkpoints) - done && writes == WritesWithout(old(writes), done)
        invariant deleted == |done|
        decreases stale
      {
        var id :| id in stale;
        var row := Row(thread, ns, id);
        RowsAtOneLess(thread, ns, stale, id);
        DeleteOne(old(checkpoints), gone, done, RowsAt(thread, ns, stale), RowsAt(thread, ns, stale - {id}), row);
        WithoutBoth(old(writes), done, {row});
        DeleteCheckpoint(row);
        done := done + {row};
        deleted, stale := deleted + 1, stale - {id};
      }
      assert done == gone;
    }

    /** Caps every namespace of a thread. */
    method CapThread(thread: string, keep: nat) returns (deleted: nat)
      modifies this
      ensures var gone := StaleIn(old(checkpoints), thread, Namespaces(old(checkpoints), thread), keep);
              && checkpoints == old(checkpoints) - gone
              && writes == WritesWithout(old(writes), gone) && deleted == |gone|
    {
      ghost var was, done: set<string> := checkpoints, {};
      var todo := Namespaces(checkpoints, thread);
      deleted := 0;
      assert StaleIn(was, thread, {}, keep) == {} && WritesWithout(writes, {}) == writes;
      while todo != {}
        invariant done == Namespaces(was, thread) - todo
        invariant checkpoints == was - StaleIn(was, thread, done, keep)
        invariant writes == WritesWithout(old(writes), StaleIn(was, thread, done, keep))
        invariant deleted == |StaleIn(was, thread, done, keep)|
        decreases todo
      {
        var ns :| ns in todo;
        StaleInOneMore(was, thread, done, ns, keep);
        WithoutBoth(old(writes), StaleIn(was, thread, done, keep), StaleIn(was, thread, {ns}, keep));
        var n := CapNamespace(thread, ns, keep);
        deleted, todo, done := deleted + n, todo - {ns}, done + {ns};
      }
      assert done == Namespaces(was, thread);
    }

    /** The aged threads but those still to look at are gone; looks at one more. */
    method DropIfAged(thread: string, cutoff: real, ghost was: set<Row>, ghost wasWrites: set<Write>,
                      ghost dropped: set<string>)
      returns (aged: bool)
      requires thread !in dropped
      requires checkpoints == WithoutThreads(was, dropped) && writes == WritesWithoutThreads(wasWrites, dropped)
      modifies this
      ensures aged <==> Aged(was, thread, cutoff)
      ensures var gone := dropped + if aged then {thread} else {};
              checkpoints == WithoutThreads(was, gone) && writes == WritesWithoutThreads(wasWrites, gone)
    {
      AgedWithout(was, dropped, thread, cutoff);
      aged := IsAged(checkpoints, thread, cutoff);
      DropOneMore(was, wasWrites, dropped, {thread});
      if aged {
        checkpoints := set r | r in checkpoints && r.thread != thread;
        writes := set w | w in writes && w.row.thread != thread;
      } else {
        assert dropped + {} == dropped;
      }
    }

    /** Drops every thread the age limit expires, writes and all. */
    method DropExpired(p: Policy, now: real) returns (threads: set<string>, threadsDeleted: nat)
      modifies this
      ensures var dropped := Dropped(old(checkpoints), p, now);
              && checkpoints == WithoutThreads(old(checkpoints), dropped)
              && writes == WritesWithoutThreads(old(writes), dropped)
              && threads == Threads(checkpoints) && threadsDeleted == |dropped|
    {
      threads, threadsDeleted := Threads(checkpoints), 0;
      assert WithoutThreads(checkpoints, {}) == checkpoints && WritesWithoutThreads(writes, {}) == writes;
      if p.maxAge.Some? {
        threads, threadsDeleted := DropAged(now - p.maxAge.value);
      }
    }

    method DropAged(cutoff: real) returns (threads: set<string>, threadsDeleted: nat)
      modifies this
      ensures var dropped := AgedThreads(old(checkpoints), cutoff);
              && checkpoints == WithoutThreads(old(checkpoints), dropped)
              && writes == WritesWithoutThreads(old(writes), dropped)
              && threads == Threads(checkpoints) && threadsDeleted == |dropped|
    {
      ghost var was, wasWrites, dropped: set<string> := checkpoints, writes, {};
      ghost var all, aged := Threads(was), AgedThreads(was, cutoff);
      threads, threadsDeleted := Threads(checkpoints), 0;
      NothingDropped(was, writes);
      var todo := threads;
      while todo != {}
        invariant Sifted(all, aged, dropped, todo, threads)
        invariant checkpoints == WithoutThreads(was, dropped) && writes == WritesWithoutThreads(wasWrites, dropped)
        invariant threadsDeleted == |dropped|
        decreases todo
      {
        var t :| t in todo;
        AgedIn(was, t, cutoff);
        Sift(all, aged, dropped, todo, threads, t);
        var isOld := DropIfAged(t, cutoff, was, wasWrites, dropped);
        if isOld {
          threads, threadsDeleted, dropped := threads - {t}, threadsDeleted + 1, dropped + {t};
        }
        todo := todo - {t};
      }
      assert dropped == aged;
      ThreadsLeft(was, dropped);
    }

    method PruneCheckpoints(p: Policy, now: real) returns (threadsDeleted: nat, checkpointsDeleted: nat)
      modifies this
      ensures checkpoints == Pruned(old(checkpoints), p, now)
      ensures var dropped, young := Dropped(old(checkpoints), p, now), Young(old(checkpoints), p, now);
              threadsDeleted == |dropped| && checkpointsDeleted == |Excess(young, Threads(young), p)|
      ensures writes == PrunedWrites(old(checkpoints), old(writes), p, now)
    {
      var threads;
      threads, threadsDeleted := DropExpired(p, now);
      ghost var young, aired, done: set<string> := checkpoints, writes, {};
      checkpointsDeleted := 0;
      var todo := threads;
      assert Excess(young, {}, p) == {} && WritesWithout(writes, {}) == writes;
      while todo != {}
        invariant todo <= threads && done == threads - todo
        invariant checkpoints == young - Excess(young, done, p)
        invariant writes == WritesWithout(aired, Excess(young, done, p))
        invariant checkpointsDeleted == |Excess(young, done, p)|
        decreases todo
      {
        var t :| t in todo;
        ExcessOneMore(young, done, t, p);
        WithoutBoth(aired, Excess(young, done, p), StaleIn(young, t, Namespaces(young, t), KeepFor(p, t)));
        var n := CapThread(t, KeepFor(p, t));
        checkpointsDeleted, todo, done := checkpointsDeleted + n, todo - {t}, done + {t};
      }
      assert done == threads;
    }
  }
}
