/** What a stream subscriber receives, over every interleaving of publishes, reads, joins and
    leaves. */
module EventDelivery {
  import opened Wrappers
  import opened EventBus

  datatype Action = Publish(post: Post) | Subscribe(id: nat, since: Option<int>) | Read(id: nat) | Leave(id: nat)

  function Applied(b: State, a: Action, lim: Limits): State {
    match a
    case Publish(post) => Published(b, post, lim)
    case Subscribe(id, since) => Subscribed(b, id, since)
    case Read(id) => ConsumedBy(b, id)
    case Leave(id) => Closed(b, id)
  }

  function After(lim: Limits, acts: seq<Action>): State {
    if acts == [] then State(0, [], map[], [])
    else Applied(After(lim, acts[..|acts| - 1]), acts[|acts| - 1], lim)
  }

  // ---- Invariants ------------------------------------------------------------------------

  predicate Numbered(log: seq<Event>) {
    forall i :: 0 <= i < |log| ==> log[i].seqNo == i + 1
  }

  predicate Increasing(s: seq<Event>) {
    forall i, j :: 0 <= i < j < |s| ==> s[i].seqNo < s[j].seqNo
  }

  function Retained(log: seq<Event>): seq<Event> {
    if log == [] then [] else
    var n := |log| - 1;
    Retained(log[..n]) + if log[n].post.retain then [log[n]] else []
  }

  /** All a subscriber has read and can still read, in order. */
  function Seen(s: Sub): seq<Event> {
    s.read + s.replay + s.queue
  }

  predicate Published?(e: Event, log: seq<Event>) {
    1 <= e.seqNo <= |log| && log[e.seqNo - 1] == e
  }

  predicate QueueIsTail(s: Sub, log: seq<Event>, max: int) {
    && s.start <= |log| && |s.queue| <= |log| - s.start
    && s.queue == log[|log| - |s.queue|..]
    && (max > 0 ==> |s.queue| <= max)
  }

  predicate InOrder(s: Sub, log: seq<Event>) {
    && Increasing(Seen(s))
    && (forall i :: 0 <= i < |Seen(s)| ==> Published?(Seen(s)[i], log))
  }

  predicate BusInv(b: State, lim: Limits) {
    && b.seqNo == |b.log| && Numbered(b.log)
    && b.ring == Newest(lim.ring, Retained(b.log))
    && forall id :: id in b.subs ==> QueueIsTail(b.subs[id], b.log, lim.maxQueue) && InOrder(b.subs[id], b.log)
  }

  // ---- One publish ---------------------------------------------------------------------------------

  lemma QueueStaysTail(s: Sub, log: seq<Event>, e: Event, max: int)
    requires QueueIsTail(s, log, max)
    ensures QueueIsTail(s.(queue := Queued(s.queue, e, max)), log + [e], max)
  {
    var t, grown := s.(queue := Queued(s.queue, e, max)), log + [e];
    assert t.queue == grown[|grown| - |t.queue|..];
  }

  lemma OrderStays(s: Sub, log: seq<Event>, e: Event, max: int)
    requires InOrder(s, log) && e.seqNo == |log| + 1
    ensures InOrder(s.(queue := Queued(s.queue, e, max)), log + [e])
  {
    var t := s.(queue := Queued(s.queue, e, max));
    var rest := s.read + s.replay;
    if max > 0 && |s.queue| >= max {
      assert Seen(t) == rest + s.queue[1..] + [e];
      assert forall i :: 0 <= i < |rest| ==> Seen(t)[i] == Seen(s)[i];
      assert forall i :: |rest| <= i < |Seen(t)| - 1 ==> Seen(t)[i] == Seen(s)[i + 1];
    } else {
      assert Seen(t) == Seen(s) + [e];
    }
  }

  lemma NewestGrows(n: nat, s: seq<Event>, e: Event)
    ensures Newest(n, Newest(n, s) + [e]) == Newest(n, s + [e])
  {
  }

  lemma PublishKeepsInv(b: State, post: Post, lim: Limits)
    requires BusInv(b, lim)
    ensures BusInv(Published(b, post, lim), lim)
  {
    var e := Event(post, b.seqNo + 1);
    assert (b.log + [e])[..|b.log|] == b.log;
    NewestGrows(lim.ring, Retained(b.log), e);
    forall id | id in b.subs
      ensures QueueIsTail(Published(b, post, lim).subs[id], b.log + [e], lim.maxQueue)
      ensures InOrder(Published(b, post, lim).subs[id], b.log + [e])
    {
      QueueStaysTail(b.subs[id], b.log, e, lim.maxQueue);
      OrderStays(b.subs[id], b.log, e, lim.maxQueue);
    }
  }

  // ---- Joining and reading ---------------------------------------------------------------------------

  lemma {:induction false} RetainedArePublished(log: seq<Event>)
    requires Numbered(log)
    ensures forall i :: 0 <= i < |Retained(log)| ==> Published?(Retained(log)[i], log)
  {
    if log != [] {
      var n := |log| - 1;
      RetainedArePublished(log[..n]);
      assert Published?(log[n], log);
    }
  }

  lemma {:induction false} RetainedInOrder(log: seq<Event>)
    requires Numbered(log)
    ensures Increasing(Retained(log))
    ensures forall i :: 0 <= i < |Retained(log)| ==> Published?(Retained(log)[i], log)
  {
    RetainedArePublished(log);
    if log != [] {
      var n := |log| - 1;
      RetainedInOrder(log[..n]);
      assert forall i :: 0 <= i < |Retained(log[..n])| ==> Retained(log[..n])[i].seqNo <= n;
    }
  }

  lemma {:induction false} SinceInOrder(s: seq<Event>, since: int)
    requires Increasing(s)
    ensures Increasing(Since(s, since)) && forall e :: e in Since(s, since) ==> e in s
  {
    if s != [] {
      SinceInOrder(s[..|s| - 1], since);
      assert forall e :: e in s[..|s| - 1] ==> e.seqNo < s[|s| - 1].seqNo;
    }
  }

  lemma NewestInOrder(n: nat, s: seq<Event>)
    requires Increasing(s)
    ensures Increasing(Newest(n, s)) && forall e :: e in Newest(n, s) ==> e in s
  {
  }

  lemma CatchUpInOrder(log: seq<Event>, n: nat, since: int)
    requires Numbered(log)
    ensures var replay := Since(Newest(n, Retained(log)), since);
            Increasing(replay) && forall e :: e in replay ==> Published?(e, log)
  {
    RetainedInOrder(log);
    NewestInOrder(n, Retained(log));
    SinceInOrder(Newest(n, Retained(log)), since);
  }

  lemma NewcomerIsFine(replay: seq<Event>, log: seq<Event>, max: int)
    requires Increasing(replay) && forall e :: e in replay ==> Published?(e, log)
    ensures var s := Sub(replay, [], |log|, replay, []); QueueIsTail(s, log, max) && InOrder(s, log)
  {
  }

  lemma SubscribeKeepsInv(b: State, id: nat, since: Option<int>, lim: Limits)
    requires BusInv(b, lim)
    ensures BusInv(Subscribed(b, id, since), lim)
  {
    var c := Subscribed(b, id, since);
    forall i | i in c.subs ensures QueueIsTail(c.subs[i], c.log, lim.maxQueue) && InOrder(c.subs[i], c.log) {
      if i == id {
        if since.Some? { CatchUpInOrder(b.log, lim.ring, since.value); }
        NewcomerIsFine(c.subs[id].replay, b.log, lim.maxQueue);
      } else {
        assert c.subs[i] == b.subs[i];
      }
    }
  }

  lemma ReaderStaysFine(s: Sub, log: seq<Event>, max: int)
    requires QueueIsTail(s, log, max) && InOrder(s, log)
    ensures QueueIsTail(Consumed(s), log, max) && InOrder(Consumed(s), log)
  {
    var t := Consumed(s);
    assert Seen(t) == Seen(s);
    assert t.queue == log[|log| - |t.queue|..];
  }

  lemma ReadKeepsInv(b: State, id: nat, lim: Limits)
    requires BusInv(b, lim)
    ensures BusInv(ConsumedBy(b, id), lim)
  {
    if id in b.subs { ReaderStaysFine(b.subs[id], b.log, lim.maxQueue); }
  }

  lemma {:induction false} RunKeepsInv(lim: Limits, acts: seq<Action>)
    ensures BusInv(After(lim, acts), lim)
  {
    if acts != [] {
      var b := After(lim, acts[..|acts| - 1]);
      RunKeepsInv(lim, acts[..|acts| - 1]);
      match acts[|acts| - 1] {
        case Publish(post) => PublishKeepsInv(b, post, lim);
        case Subscribe(id, since) => SubscribeKeepsInv(b, id, since, lim);
        case Read(id) => ReadKeepsInv(b, id, lim);
        case Leave(id) =>
      }
    }
  }

  // ---- Delivery ------------------------------------------------------------------------------------------

  /** A queue is always a contiguous suffix of the events published since its subscriber joined,
      never longer than its limit: an overflow loses only the oldest. */
  lemma QueueIsSuffixSinceJoining(lim: Limits, acts: seq<Action>, id: nat)
    requires id in After(lim, acts).subs
    ensures var b := After(lim, acts);
            var s := b.subs[id];
            && s.start <= |b.log| && |s.queue| <= |b.log| - s.start
            && s.queue == b.log[|b.log| - |s.queue|..]
            && (lim.maxQueue > 0 ==> |s.queue| <= lim.maxQueue)
  {
    RunKeepsInv(lim, acts);
  }

  /** What was read, then what is left of the catch-up, then the queue: all published events, in
      strictly increasing order, so nothing is seen twice across the seam. */
  lemma SeenInOrder(lim: Limits, acts: seq<Action>, id: nat)
    requires id in After(lim, acts).subs
    ensures var b := After(lim, acts);
            && Increasing(Seen(b.subs[id]))
            && forall i :: 0 <= i < |Seen(b.subs[id])| ==> Published?(Seen(b.subs[id])[i], b.log)
  {
    RunKeepsInv(lim, acts);
  }

  // ---- What overflows lose ---------------------------------------------------------------------------------

  /** Publishes that found a subscriber's queue full, counted anew from each join. */
  function LostBy(b: State, a: Action, lim: Limits, id: nat, lost: nat): nat {
    match a
    case Publish(_) => lost + if id in b.subs && Full(b.subs[id].queue, lim.maxQueue) then 1 else 0
    case Subscribe(joining, _) => if joining == id then 0 else lost
    case _ => lost
  }

  /** How many publishes since a subscriber last joined found its queue full. */
  function Lost(lim: Limits, acts: seq<Action>, id: nat): nat {
    if acts == [] then 0 else
    var before := acts[..|acts| - 1];
    LostBy(After(lim, before), acts[|acts| - 1], lim, id, Lost(lim, before, id))
  }

  /** So many of the events since joining are not among those seen; if none, all are, in order; if
      any, more than a queue of them have been published. */
  predicate Misses(s: Sub, log: seq<Event>, max: int, lost: nat) {
    && s.start <= |log|
    && |Seen(s)| + lost == |s.caughtUp| + |log| - s.start
    && (lost == 0 ==> Seen(s) == s.caughtUp + log[s.start..])
    && (lost > 0 ==> 0 < max < |log| - s.start)
  }

  lemma PublishMisses(s: Sub, log: seq<Event>, e: Event, max: int, lost: nat)
    requires QueueIsTail(s, log, max) && Misses(s, log, max, lost)
    ensures Misses(s.(queue := Queued(s.queue, e, max)), log + [e], max, lost + if Full(s.queue, max) then 1 else 0)
  {
    if !Full(s.queue, max) {
      var t := s.(queue := s.queue + [e]);
      assert Seen(t) == Seen(s) + [e];
      assert (log + [e])[s.start..] == log[s.start..] + [e];
    }
  }

  lemma ReadMisses(s: Sub, log: seq<Event>, max: int, lost: nat)
    requires Misses(s, log, max, lost)
    ensures Misses(Consumed(s), log, max, lost)
  {
    assert Seen(Consumed(s)) == Seen(s);
  }

  lemma NewcomerMissesNothing(replay: seq<Event>, log: seq<Event>, max: int)
    ensures Misses(Sub(replay, [], |log|, replay, []), log, max, 0)
  {
  }

  lemma StepMisses(b: State, a: Action, lim: Limits, id: nat, lost: nat)
    requires b.seqNo == |b.log| && id in Applied(b, a, lim).subs
    requires id in b.subs ==>
               QueueIsTail(b.subs[id], b.log, lim.maxQueue) && Misses(b.subs[id], b.log, lim.maxQueue, lost)
    ensures var c := Applied(b, a, lim);
            Misses(c.subs[id], c.log, lim.maxQueue, LostBy(b, a, lim, id, lost))
  {
    match a
    case Publish(post) => PublishMisses(b.subs[id], b.log, Event(post, b.seqNo + 1), lim.maxQueue, lost);
    case Subscribe(joining, _) =>
      if joining == id { NewcomerMissesNothing(Applied(b, a, lim).subs[id].replay, b.log, lim.maxQueue); }
    case Read(reader) => if reader == id { ReadMisses(b.subs[id], b.log, lim.maxQueue, lost); }
    case Leave(_) =>
  }

  lemma {:induction false} RunMisses(lim: Limits, acts: seq<Action>, id: nat)
    requires id in After(lim, acts).subs
    ensures var b := After(lim, acts); Misses(b.subs[id], b.log, lim.maxQueue, Lost(lim, acts, id))
  {
    var before := acts[..|acts| - 1];
    RunKeepsInv(lim, before);
    if id in After(lim, before).subs { RunMisses(lim, before, id); }
    StepMisses(After(lim, before), acts[|acts| - 1], lim, id, Lost(lim, before, id));
  }

  /** A subscriber misses as many of the events published since it joined as found its queue full,
      and so none at all exactly when none did. */
  lemma NothingMissedUnlessFull(lim: Limits, acts: seq<Action>, id: nat)
    requires id in After(lim, acts).subs
    ensures var b, lost := After(lim, acts), Lost(lim, acts, id);
            var s := b.subs[id];
            && s.start <= |b.log|
            && |Seen(s)| + lost == |s.caughtUp| + |b.log| - s.start
            && (Seen(s) == s.caughtUp + b.log[s.start..] <==> lost == 0)
  {
    RunMisses(lim, acts, id);
  }

  /** In particular none is missed without a limit, or while no more than a queue of events has been
      published since the join, read or not. */
  lemma NothingMissedWithinTheLimit(lim: Limits, acts: seq<Action>, id: nat)
    requires id in After(lim, acts).subs
    ensures var b := After(lim, acts);
            var s := b.subs[id];
            s.start <= |b.log| &&
            (lim.maxQueue <= 0 || |b.log| - s.start <= lim.maxQueue ==> Seen(s) == s.caughtUp + b.log[s.start..])
  {
    RunMisses(lim, acts, id);
  }

  lemma OneMore(lim: Limits, run: seq<Action>, a: Action, id: nat)
    ensures After(lim, run + [a]) == Applied(After(lim, run), a, lim)
    ensures Lost(lim, run + [a], id) == LostBy(After(lim, run), a, lim, id, Lost(lim, run, id))
  {
    assert (run + [a])[..|run|] == run;
  }

  /** An event is lost by the second publish to a queue of one that nobody reads. */
  lemma OverflowLosesTheOldest(lim: Limits, a: Post, b: Post)
    requires lim.maxQueue == 1
    ensures var run := [Subscribe(0, None)] + [Publish(a)] + [Publish(b)];
            && 0 in After(lim, run).subs && After(lim, run).log == [Event(a, 1), Event(b, 2)]
            && Seen(After(lim, run).subs[0]) == [Event(b, 2)] && Lost(lim, run, 0) == 1
  {
    assert [] + [Subscribe(0, None)] == [Subscribe(0, None)];
    OneMore(lim, [], Subscribe(0, None), 0);
    OneMore(lim, [Subscribe(0, None)], Publish(a), 0);
    OneMore(lim, [Subscribe(0, None)] + [Publish(a)], Publish(b), 0);
  }

  lemma {:induction false} SinceSplits(a: seq<Event>, b: seq<Event>, since: int)
    ensures Since(a + b, since) == Since(a, since) + Since(b, since)
  {
    if b == [] {
      assert a + b == a;
    } else {
      assert (a + b)[..|a + b| - 1] == a + b[..|b| - 1];
      SinceSplits(a, b[..|b| - 1], since);
    }
  }

  lemma {:induction false} SinceAll(s: seq<Event>, since: int)
    requires forall i :: 0 <= i < |s| ==> s[i].seqNo > since
    ensures Since(s, since) == s
  {
    if s != [] { SinceAll(s[..|s| - 1], since); }
  }

  lemma {:induction false} SinceIsLate(s: seq<Event>, since: int)
    ensures |Since(s, since)| <= |s|
    ensures forall e :: e in Since(s, since) ==> e in s && e.seqNo > since
  {
    if s != [] { SinceIsLate(s[..|s| - 1], since); }
  }

  /** Once an older event is after the mark, all later ones are. */
  lemma TailIsAllLate(gone: seq<Event>, ring: seq<Event>, since: int)
    requires forall i, j :: 0 <= i < |gone| && 0 <= j < |ring| ==> gone[i].seqNo < ring[j].seqNo
    requires Since(gone, since) != []
    ensures Since(ring, since) == ring
  {
    SinceIsLate(gone, since);
    var e := Since(gone, since)[0];
    var i :| 0 <= i < |gone| && gone[i] == e;
    forall j | 0 <= j < |ring| ensures ring[j].seqNo > since { assert gone[i].seqNo < ring[j].seqNo; }
    SinceAll(ring, since);
  }

  lemma TailSince(gone: seq<Event>, ring: seq<Event>, since: int)
    requires forall i, j :: 0 <= i < |gone| && 0 <= j < |ring| ==> gone[i].seqNo < ring[j].seqNo
    ensures Since(ring, since) == Since(gone + ring, since) <==> |Since(gone + ring, since)| <= |ring|
  {
    var older, newer := Since(gone, since), Since(ring, since);
    SinceSplits(gone, ring, since);
    SinceIsLate(ring, since);
    if older == [] { assert older + newer == newer; } else { TailIsAllLate(gone, ring, since); }
  }

  lemma NewestSince(n: nat, s: seq<Event>, since: int)
    requires Increasing(s)
    ensures Since(Newest(n, s), since) == Since(s, since) <==> |Since(s, since)| <= n
  {
    if |s| > n {
      assert s == s[..|s| - n] + s[|s| - n..];
      TailSince(s[..|s| - n], s[|s| - n..], since);
    } else {
      SinceIsLate(s, since);
    }
  }

  /** The ring holds the newest retained events, so a catch-up is complete — every event retained
      after the mark, none twice — exactly when no more than a ring of them have been retained. */
  lemma CatchUpIsCompleteWithinTheRing(lim: Limits, acts: seq<Action>, since: int)
    ensures var b := After(lim, acts);
            && b.ring == Newest(lim.ring, Retained(b.log))
            && (Since(b.ring, since) == Since(Retained(b.log), since) <==>
                |Since(Retained(b.log), since)| <= lim.ring)
  {
    RunKeepsInv(lim, acts);
    RetainedInOrder(After(lim, acts).log);
    NewestSince(lim.ring, Retained(After(lim, acts).log), since);
  }

  /** A gap-free stream: a subscriber that joins with a mark sees every retained event after its
      mark up to the join, then every event after it, exactly when the mark is no further back than
      the ring and no publish since the join finds its queue full. */
  lemma StreamIsGapFree(lim: Limits, acts: seq<Action>, id: nat, since: int, more: seq<Action>)
    requires forall a :: a in more ==> (a.Subscribe? || a.Leave? ==> a.id != id)
    ensures var run := acts + [Subscribe(id, Some(since))] + more;
            var joined, b := After(lim, acts), After(lim, run);
            && id in b.subs && |joined.log| <= |b.log|
            && (Seen(b.subs[id]) == Since(Retained(joined.log), since) + b.log[|joined.log|..] <==>
                |Since(Retained(joined.log), since)| <= lim.ring && Lost(lim, run, id) == 0)
  {
    var run := acts + [Subscribe(id, Some(since))];
    var joined := After(lim, acts);
    assert run[..|run| - 1] == acts;
    RunKeepsInv(lim, acts);
    CatchUpIsCompleteWithinTheRing(lim, acts, since);
    StartStays(lim, run, id, more);
    NothingMissedUnlessFull(lim, run + more, id);
    CatchUpIsNoLonger(lim.ring, Retained(joined.log), since);
    var b := After(lim, run + more);
    BothWhole(Seen(b.subs[id]), Since(joined.ring, since), Since(Retained(joined.log), since), b.log[|joined.log|..],
              Lost(lim, run + more, id));
  }

  /** A stream is whole exactly when its catch-up and what came after it are. */
  lemma BothWhole(seen: seq<Event>, caughtUp: seq<Event>, owed: seq<Event>, live: seq<Event>, lost: nat)
    requires |seen| + lost == |caughtUp| + |live| && |caughtUp| <= |owed|
    requires seen == caughtUp + live <==> lost == 0
    ensures seen == owed + live <==> caughtUp == owed && lost == 0
  {
    if seen == owed + live {
      assert (caughtUp + live)[..|caughtUp|] == caughtUp && (owed + live)[..|owed|] == owed;
    }
  }

  lemma CatchUpIsNoLonger(n: nat, s: seq<Event>, since: int)
    ensures |Since(Newest(n, s), since)| <= |Since(s, since)|
  {
    if |s| > n {
      assert s == s[..|s| - n] + s[|s| - n..];
      SinceSplits(s[..|s| - n], s[|s| - n..], since);
    }
  }

  lemma {:induction false} StartStays(lim: Limits, run: seq<Action>, id: nat, more: seq<Action>)
    requires id in After(lim, run).subs
    requires forall a :: a in more ==> (a.Subscribe? || a.Leave? ==> a.id != id)
    ensures var was, b := After(lim, run), After(lim, run + more);
            && id in b.subs && |was.log| <= |b.log|
            && b.subs[id].start == was.subs[id].start && b.subs[id].caughtUp == was.subs[id].caughtUp
  {
    if more == [] {
      assert run + more == run;
    } else {
      assert (run + more)[..|run + more| - 1] == run + more[..|more| - 1];
      StartStays(lim, run, id, more[..|more| - 1]);
    }
  }
}