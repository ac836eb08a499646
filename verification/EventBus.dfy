/** The in-process event bus: one global sequence, a ring of retained events for catching up, and
    one bounded drop-oldest queue per stream subscriber. */
module EventBus {
  import opened Wrappers
  import opened Strings

  // ---- Topic patterns --------------------------------------------------------------------

  /** The first tail wildcard, or the end. */
  function TailAt(pattern: seq<string>): (k: nat)
    ensures k <= |pattern| && (k < |pattern| ==> pattern[k] == "#")
    ensures forall i :: 0 <= i < k ==> pattern[i] != "#"
  {
    if pattern == [] || pattern[0] == "#" then 0 else 1 + TailAt(pattern[1..])
  }

  /** Segment by segment up to the tail wildcard, each either equal or any; without one, all of
      the topic is used up. */
  predicate Matches(pattern: seq<string>, topic: seq<string>) {
    var k := TailAt(pattern);
    && (if k < |pattern| then k <= |topic| else k == |topic|)
    && forall i :: 0 <= i < k ==> pattern[i] == "*" || pattern[i] == topic[i]
  }

  lemma HashMatchesAll()
    ensures Split("#", '.') == ["#"]
  {
    assert "#"[1..] == "" && Split("", '.') == [""];
    assert Split("#", '.')[0] == "#";
  }

  method TopicMatches(pattern: string, topic: string) returns (r: bool)
    ensures r <==> Matches(Split(pattern, '.'), Split(topic, '.'))
  {
    if pattern == "#" || pattern == topic {
      HashMatchesAll();
      return true;
    }
    r := ScanMatches(Split(pattern, '.'), Split(topic, '.'));
  }

  /** The scan over the segments. */
  method ScanMatches(pp: seq<string>, tp: seq<string>) returns (r: bool)
    ensures r <==> Matches(pp, tp)
  {
    ghost var k := TailAt(pp);
    for i := 0 to |pp|
      invariant i <= |tp| && i <= k
      invariant forall j :: 0 <= j < i ==> pp[j] == "*" || pp[j] == tp[j]
    {
      if pp[i] == "#" {
        return true;
      }
      if i >= |tp| || (pp[i] != "*" && pp[i] != tp[i]) {
        return false;
      }
    }
    return |pp| == |tp|;
  }

  /** A pattern without wildcards matches its own topic and no other. */
  lemma LiteralMatchesOnlyItself(pattern: string, topic: string)
    requires var pp := Split(pattern, '.'); "#" !in pp && "*" !in pp
    ensures Matches(Split(pattern, '.'), Split(topic, '.')) <==> pattern == topic
  {
    SplitJoins(pattern, '.');
    SplitJoins(topic, '.');
    var pp, tp := Split(pattern, '.'), Split(topic, '.');
    assert TailAt(pp) == |pp|;
    if Matches(pp, tp) { assert pp == tp; }
  }

  /** What a pattern means, segment by segment: `#` takes whatever is left, nothing included; `*`
      takes one segment, whichever it is; any other segment takes itself. */
  lemma MatchesBySegment(seg: string, pattern: seq<string>, topic: seq<string>)
    ensures Matches([], topic) <==> topic == []
    ensures Matches(["#"] + pattern, topic)
    ensures Matches(["*"] + pattern, topic) <==> topic != [] && Matches(pattern, topic[1..])
    ensures seg != "#" && seg != "*" ==>
              (Matches([seg] + pattern, topic) <==> topic != [] && topic[0] == seg && Matches(pattern, topic[1..]))
  {
    assert TailAt(["#"] + pattern) == 0;
    StepMatches("*", pattern, topic);
    if seg != "#" { StepMatches(seg, pattern, topic); }
  }

  lemma StepMatches(seg: string, pattern: seq<string>, topic: seq<string>)
    requires seg != "#"
    ensures Matches([seg] + pattern, topic) <==>
            topic != [] && (seg == "*" || topic[0] == seg) && Matches(pattern, topic[1..])
  {
    var pp, k := [seg] + pattern, TailAt(pattern);
    assert pp[1..] == pattern;
    assert TailAt(pp) == k + 1;
    if topic != [] {
      assert forall i :: 0 <= i < k && i < |topic| - 1 ==> pp[i + 1] == pattern[i] && topic[i + 1] == topic[1..][i];
      if Matches(pattern, topic[1..]) && (seg == "*" || topic[0] == seg) {
        forall i | 0 <= i < k + 1 ensures pp[i] == "*" || pp[i] == topic[i] {
          if i > 0 { assert pp[i] == pattern[i - 1] && topic[i] == topic[1..][i - 1]; }
        }
      }
      if Matches(pp, topic) {
        forall i | 0 <= i < k ensures pattern[i] == "*" || pattern[i] == topic[1..][i] {
          assert pp[i + 1] == pattern[i];
        }
      }
    }
  }

  /** Behind a prefix without wildcards, `#` matches the prefix itself and everything below it, and
      `*` exactly one segment below it. */
  lemma {:induction false} WildcardEnds(prefix: seq<string>, topic: seq<string>)
    requires "#" !in prefix && "*" !in prefix
    ensures Matches(prefix + ["#"], topic) <==> prefix <= topic
    ensures Matches(prefix + ["*"], topic) <==> prefix <= topic && |topic| == |prefix| + 1
  {
    if prefix == [] {
      assert prefix + ["#"] == ["#"] + [] && prefix + ["*"] == ["*"] + [];
      MatchesBySegment("", [], topic);
      if topic != [] { MatchesBySegment("", [], topic[1..]); }
    } else {
      var seg, rest := prefix[0], prefix[1..];
      assert prefix + ["#"] == [seg] + (rest + ["#"]) && prefix + ["*"] == [seg] + (rest + ["*"]);
      assert seg in prefix;
      StepMatches(seg, rest + ["#"], topic);
      StepMatches(seg, rest + ["*"], topic);
      if topic != [] {
        WildcardEnds(rest, topic[1..]);
        assert topic == [topic[0]] + topic[1..] && prefix == [seg] + rest;
      }
    }
  }

  /** So `artifact.#` matches `artifact` and whatever begins with `artifact.`. */
  lemma HashMatchesBelow(prefix: string, topic: string)
    requires "#" !in Split(prefix, '.') && "*" !in Split(prefix, '.')
    ensures Matches(Split(prefix + ".#", '.'), Split(topic, '.')) <==> topic == prefix || prefix + "." <= topic
  {
    var pp, tp := Split(prefix, '.'), Split(topic, '.');
    SplitAppends(prefix, "#", '.');
    assert prefix + "." + "#" == prefix + ".#";
    HashMatchesAll();
    WildcardEnds(pp, tp);
    PrefixBySegments(prefix, topic);
  }

  lemma BelowBySegments(prefix: string, topic: string)
    requires prefix + "." <= topic
    ensures Split(prefix, '.') <= Split(topic, '.')
  {
    assert topic == prefix + ['.'] + topic[|prefix| + 1..];
    SplitAppends(prefix, topic[|prefix| + 1..], '.');
  }

  lemma LongerIsBelow(pp: seq<string>, tp: seq<string>)
    requires pp != [] && pp <= tp
    ensures tp == pp || Joined(pp, '.') + "." <= Joined(tp, '.')
  {
    if pp != tp {
      assert tp == pp + tp[|pp|..];
      JoinedAppends(pp, tp[|pp|..], '.');
    }
  }

  lemma PrefixBySegments(prefix: string, topic: string)
    ensures Split(prefix, '.') <= Split(topic, '.') <==> topic == prefix || prefix + "." <= topic
  {
    SplitJoins(prefix, '.');
    SplitJoins(topic, '.');
    if prefix + "." <= topic {
      BelowBySegments(prefix, topic);
    } else if Split(prefix, '.') <= Split(topic, '.') {
      LongerIsBelow(Split(prefix, '.'), Split(topic, '.'));
    }
  }

  // ---- The bus -------------------------------------------------------------------------------

  datatype Post = Post(topic: string, data: nat, retain: bool)

  datatype Event = Event(post: Post, seqNo: nat)

  /** A stream subscriber. The catch-up still to be read, the live queue, and, for the statements
      below, where it joined, what it caught up on and all it has read. */
  datatype Sub = Sub(replay: seq<Event>, queue: seq<Event>, start: nat, caughtUp: seq<Event>, read: seq<Event>)

  /** The log of every event is kept only to state things about; the bus itself retains the ring. */
  datatype State = State(seqNo: nat, ring: seq<Event>, subs: map<nat, Sub>, log: seq<Event>)

  datatype Limits = Limits(maxQueue: int, ring: nat)

  function Newest(n: nat, s: seq<Event>): seq<Event> {
    if |s| <= n then s else s[|s| - n..]
  }

  /** A queue without a positive limit is never full. */
  predicate Full(q: seq<Event>, max: int) {
    max > 0 && |q| >= max
  }

  /** A full queue gives up its oldest event. */
  function Queued(q: seq<Event>, e: Event, max: int): seq<Event> {
    (if Full(q, max) then q[1..] else q) + [e]
  }

  function FannedOut(subs: map<nat, Sub>, e: Event, max: int): map<nat, Sub> {
    map id | id in subs :: subs[id].(queue := Queued(subs[id].queue, e, max))
  }

  function Published(b: State, post: Post, lim: Limits): State {
    var e := Event(post, b.seqNo + 1);
    State(b.seqNo + 1,
          if post.retain then Newest(lim.ring, b.ring + [e]) else b.ring,
          FannedOut(b.subs, e, lim.maxQueue),
          b.log + [e])
  }

  function PublishedAll(b: State, posts: seq<Post>, lim: Limits): State {
    if posts == [] then b
    else Published(PublishedAll(b, posts[..|posts| - 1], lim), posts[|posts| - 1], lim)
  }

  function Since(events: seq<Event>, since: int): seq<Event> {
    if events == [] then [] else
    var n := |events| - 1;
    Since(events[..n], since) + if events[n].seqNo > since then [events[n]] else []
  }

  function Subscribed(b: State, id: nat, since: Option<int>): State {
    var replay := if since.Some? then Since(b.ring, since.value) else [];
    b.(subs := b.subs[id := Sub(replay, [], b.seqNo, replay, [])])
  }

  /** A reader takes the catch-up first, then the queue; with neither it waits. */
  function Consumed(s: Sub): Sub {
    if s.replay != [] then s.(replay := s.replay[1..], read := s.read + [s.replay[0]])
    else if s.queue != [] then s.(queue := s.queue[1..], read := s.read + [s.queue[0]])
    else s
  }

  function ConsumedBy(b: State, id: nat): State {
    if id in b.subs then b.(subs := b.subs[id := Consumed(b.subs[id])]) else b
  }

  function Closed(b: State, id: nat): State {
    b.(subs := b.subs - {id})
  }

  // ---- Publishes made by handlers ----------------------------------------------------------------

  /** A publish and what the handlers publish while it is being fanned out, in order. */
  datatype Pub = Pub(post: Post, reactions: seq<Reaction>)

  datatype Reaction = Reaction(handler: nat, pub: Pub)

  /** Handlers are called only for topics their pattern matches. */
  predicate Called(handlers: seq<string>, r: Reaction, topic: string) {
    r.handler < |handlers| && Matches(Split(handlers[r.handler], '.'), Split(topic, '.'))
  }

  /** The posts in the order they are numbered: each before those its handlers make. */
  function Posts(handlers: seq<string>, p: Pub): seq<Post>
    decreases p, 0
  {
    [p.post] + ReactionPosts(handlers, p, p.reactions)
  }

  function ReactionPosts(handlers: seq<string>, p: Pub, rs: seq<Reaction>): seq<Post>
    requires rs <= p.reactions
    decreases p, 0, |rs|
  {
    if rs == [] then [] else
    var n := |rs| - 1;
    assert rs[n] == p.reactions[n];
    ReactionPosts(handlers, p, rs[..n]) +
    if Called(handlers, rs[n], p.post.topic) then Posts(handlers, rs[n].pub) else []
  }

  /** The posts of a sequence are logged in order, each under the next number. */
  lemma {:induction false} PostsAreNumbered(b: State, posts: seq<Post>, lim: Limits)
    requires b.seqNo == |b.log|
    ensures var c := PublishedAll(b, posts, lim);
            && c.seqNo == |c.log| == |b.log| + |posts| && b.log <= c.log
            && forall i :: 0 <= i < |posts| ==> c.log[|b.log| + i] == Event(posts[i], |b.log| + i + 1)
  {
    if posts != [] { PostsAreNumbered(b, posts[..|posts| - 1], lim); }
  }

  lemma {:induction false} PublishedAllSplits(b: State, p: seq<Post>, q: seq<Post>, lim: Limits)
    ensures PublishedAll(b, p + q, lim) == PublishedAll(PublishedAll(b, p, lim), q, lim)
  {
    if q == [] {
      assert p + q == p;
    } else {
      assert (p + q)[..|p + q| - 1] == p + q[..|q| - 1];
      PublishedAllSplits(b, p, q[..|q| - 1], lim);
    }
  }

  /** The posts that one reaction to a publish comes to. */
  function PostsOf(handlers: seq<string>, p: Pub, i: nat): seq<Post>
    requires i < |p.reactions|
  {
    if Called(handlers, p.reactions[i], p.post.topic) then Posts(handlers, p.reactions[i].pub) else []
  }

  lemma ReactionsGrow(handlers: seq<string>, p: Pub, i: nat)
    requires i < |p.reactions|
    ensures [p.post] + ReactionPosts(handlers, p, p.reactions[..i + 1])
            == [p.post] + ReactionPosts(handlers, p, p.reactions[..i]) + PostsOf(handlers, p, i)
  {
    assert p.reactions[..i + 1][..i] == p.reactions[..i];
  }

  /** Posts that a publish adds follow those it had: one more handler's reaction comes after all
      before it, with everything it leads to, and only if the handler's pattern matches the topic. */
  lemma PostsNest(handlers: seq<string>, post: Post, rs: seq<Reaction>, r: Reaction)
    ensures Posts(handlers, Pub(post, rs + [r]))
            == Posts(handlers, Pub(post, rs))
               + if r.handler < |handlers| && Matches(Split(handlers[r.handler], '.'), Split(post.topic, '.'))
                 then Posts(handlers, r.pub) else []
  {
    var p, q := Pub(post, rs + [r]), Pub(post, rs);
    assert p.reactions[..|rs|] == rs && p.reactions[|rs|] == r && p.reactions[..|rs| + 1] == p.reactions;
    ReactionsGrow(handlers, p, |rs|);
    ReactionsAlone(handlers, p, q, rs);
  }

  /** Reactions depend on nothing of their publish but its topic. */
  lemma {:induction false} ReactionsAlone(handlers: seq<string>, p: Pub, q: Pub, rs: seq<Reaction>)
    requires rs <= p.reactions && rs <= q.reactions && p.post.topic == q.post.topic
    ensures ReactionPosts(handlers, p, rs) == ReactionPosts(handlers, q, rs)
  {
    if rs != [] { ReactionsAlone(handlers, p, q, rs[..|rs| - 1]); }
  }

  lemma PostsOfOne(handlers: seq<string>, post: Post)
    ensures Posts(handlers, Pub(post, [])) == [post]
  {
  }

  lemma PublishedOne(b: State, post: Post, lim: Limits)
    ensures PublishedAll(b, [post], lim) == Published(b, post, lim)
  {
    assert [post][..0] == [];
  }

  class Bus {
    const lim: Limits
    var seqNo: nat
    var ring: seq<Event>
    var subscribers: map<nat, Sub>
    var handlers: seq<string>
    ghost var log: seq<Event>

    ghost function Now(): State
      reads this`seqNo, this`ring, this`subscribers, this`log
    {
      State(seqNo, ring, subscribers, log)
    }

    constructor (maxQueue: int, ringSize: nat)
      ensures Now() == State(0, [], map[], []) && handlers == [] && lim == Limits(maxQueue, ringSize)
    {
      lim := Limits(maxQueue, ringSize);
      seqNo, ring, subscribers, handlers, log := 0, [], map[], [], [];
    }

    /** One publish and, nested inside its fan-out, every publish its handlers make. */
    method PublishOnLoop(p: Pub)
      modifies this`seqNo, this`ring, this`subscribers, this`log
      ensures Now() == PublishedAll(old(Now()), Posts(handlers, p), lim)
      decreases p, 1
    {
      ghost var was, done := Now(), [p.post];
      Enqueue(p.post);
      PublishedOne(was, p.post, lim);
      for i := 0 to |p.reactions|
        invariant Now() == PublishedAll(was, done, lim)
        invariant done == [p.post] + ReactionPosts(handlers, p, p.reactions[..i])
      {
        ReactionsGrow(handlers, p, i);
        CallHandler(p, i);
        PublishedAllSplits(was, done, PostsOf(handlers, p, i), lim);
        done := done + PostsOf(handlers, p, i);
      }
      assert p.reactions[..|p.reactions|] == p.reactions;
    }

    /** Calls one handler, if its pattern matches, and so publishes what it publishes. */
    method CallHandler(p: Pub, i: nat)
      requires i < |p.reactions|
      modifies this`seqNo, this`ring, this`subscribers, this`log
      ensures Now() == PublishedAll(old(Now()), PostsOf(handlers, p, i), lim)
      decreases p, 0
    {
      var r := p.reactions[i];
      if r.handler < |handlers| {
        var called := TopicMatches(handlers[r.handler], p.post.topic);
        if called {
          PublishOnLoop(r.pub);
        }
      }
    }

    /** Numbers the event, retains it if asked, and puts it on every subscriber's queue. */
    method Enqueue(post: Post)
      modifies this`seqNo, this`ring, this`subscribers, this`log
      ensures Now() == Published(old(Now()), post, lim)
    {
      seqNo := seqNo + 1;
      var payload := Event(post, seqNo);
      if post.retain {
        ring := ring + [payload];
        if |ring| > lim.ring {
          ring := ring[|ring| - lim.ring..];
        }
      }
      FanOut(payload);
      log := log + [payload];
    }

    method FanOut(payload: Event)
      modifies this`subscribers
      ensures subscribers == FannedOut(old(subscribers), payload, lim.maxQueue)
    {
      var todo := subscribers.Keys;
      while todo != {}
        invariant todo <= subscribers.Keys == old(subscribers.Keys)
        invariant forall id :: id in subscribers ==>
          subscribers[id] == if id in todo then old(subscribers)[id]
                             else FannedOut(old(subscribers), payload, lim.maxQueue)[id]
        decreases todo
      {
        var id :| id in todo;
        var q := subscribers[id].queue;
        if lim.maxQueue > 0 && |q| >= lim.maxQueue {
          q := q[1..];
        }
        subscribers := subscribers[id := subscribers[id].(queue := q + [payload])];
        todo := todo - {id};
      }
    }

    /** Joins the fan-out and takes its catch-up in one step, so that no event falls between. */
    method Subscribe(id: nat, since: Option<int>)
      modifies this`subscribers
      ensures Now() == Subscribed(old(Now()), id, since)
    {
      var replay := [];
      if since.Some? {
        for i := 0 to |ring|
          invariant replay == Since(ring[..i], since.value)
        {
          assert ring[..i + 1][..i] == ring[..i];
          if ring[i].seqNo > since.value {
            replay := replay + [ring[i]];
          }
        }
        assert ring[..|ring|] == ring;
      }
      subscribers := subscribers[id := Sub(replay, [], seqNo, replay, [])];
    }

    /** The next event a reader sees, if there is one for it. */
    method Next(id: nat) returns (e: Option<Event>)
      modifies this`subscribers
      ensures Now() == ConsumedBy(old(Now()), id)
      ensures e.Some? <==> id in subscribers && |subscribers[id].read| > |old(subscribers)[id].read|
      ensures e.Some? ==> subscribers[id].read == old(subscribers)[id].read + [e.value]
    {
      if id !in subscribers {
        return None;
      }
      var s := subscribers[id];
      if s.replay != [] {
        e, s := Some(s.replay[0]), s.(replay := s.replay[1..], read := s.read + [s.replay[0]]);
      } else if s.queue != [] {
        e, s := Some(s.queue[0]), s.(queue := s.queue[1..], read := s.read + [s.queue[0]]);
      } else {
        e := None;
      }
      subscribers := subscribers[id := s];
    }

    method Close(id: nat)
      modifies this`subscribers
      ensures Now() == Closed(old(Now()), id)
    {
      subscribers := subscribers - {id};
    }

    method SubscribeHandler(pattern: string)
      modifies this`handlers
      ensures handlers == old(handlers) + [pattern]
    {
      handlers := handlers + [pattern];
    }
  }
}
