/** The client of a streamed turn: artifact reassembly under the A2A append rule, and the
    round trip from the producer's answer to the text the client reads. */
module StreamClient {
  import opened Strings
  import opened Wrappers
  import opened TurnLog
  import opened TurnRun
  import TurnCounters
  import opened TurnExecutor

  datatype Artifact = Artifact(id: string, parts: seq<Part>)

  /** Where a status says the task is. */
  datatype Phase = Working | Over(state: State)

  /** A wire frame: a task snapshot, which replaces what was reassembled; a frame of a turn; or a
      status the server sends itself, such as a cancellation. */
  datatype Wire =
    | Snapshot(artifacts: seq<Artifact>)
    | Update(frame: Frame)
    | Status(phase: Phase, last: bool, parts: seq<Part>)

  datatype Reply = Reply(phase: Phase, text: string, artifacts: seq<Artifact>)

  // ---- Reassembly -----------------------------------------------------------------------

  function IndexOf(arts: seq<Artifact>, id: string): (i: nat)
    ensures i <= |arts|
    ensures forall k :: 0 <= k < i ==> arts[k].id != id
    ensures i < |arts| ==> arts[i].id == id
  {
    if arts == [] || arts[0].id == id then 0 else 1 + IndexOf(arts[1..], id)
  }

  /** A new id is added; an append extends the artifact of that id; anything else replaces it. */
  function Merge(arts: seq<Artifact>, f: Frame): seq<Artifact>
    requires f.ArtifactFrame?
  {
    var i := IndexOf(arts, f.id);
    if i == |arts| then arts + [Artifact(f.id, f.parts)]
    else if f.append then arts[i := Artifact(f.id, arts[i].parts + f.parts)]
    else arts[i := Artifact(f.id, f.parts)]
  }

  function Absorb(arts: seq<Artifact>, w: Wire): seq<Artifact> {
    match w
    case Snapshot(snapshot) => if snapshot == [] then arts else snapshot
    case Update(f) => if f.ArtifactFrame? then Merge(arts, f) else arts
    case Status(_, _, _) => arts
  }

  function Reassemble(ws: seq<Wire>): seq<Artifact> {
    if ws == [] then [] else Absorb(Reassemble(ws[..|ws| - 1]), ws[|ws| - 1])
  }

  /** A frame touches the artifact of its own id and no other: an append puts its parts behind those
      already there, and anything else leaves its parts alone. */
  lemma MergeTouchesOneArtifact(arts: seq<Artifact>, f: Frame, i: nat)
    requires f.ArtifactFrame? && i <= |arts| && (forall k :: 0 <= k < i ==> arts[k].id != f.id)
    requires i < |arts| ==> arts[i].id == f.id
    ensures var merged := Merge(arts, f);
            && |merged| == (if i < |arts| then |arts| else |arts| + 1)
            && (forall k :: 0 <= k < |arts| && k != i ==> merged[k] == arts[k])
            && merged[i].id == f.id
            && merged[i].parts == if i < |arts| && f.append then arts[i].parts + f.parts else f.parts
  {
    assert IndexOf(arts, f.id) == i;
  }

  /** What a snapshot holds replaces all that came before it; an empty one replaces nothing. */
  lemma {:induction false} SnapshotReplaces(ws: seq<Wire>, artifacts: seq<Artifact>, rest: seq<Wire>, ws': seq<Wire>)
    ensures Reassemble(ws + [Snapshot(artifacts)]) == if artifacts == [] then Reassemble(ws) else artifacts
    ensures artifacts != [] ==>
              Reassemble(ws + [Snapshot(artifacts)] + rest) == Reassemble(ws' + [Snapshot(artifacts)] + rest)
  {
    var a, b := ws + [Snapshot(artifacts)], ws' + [Snapshot(artifacts)];
    assert a[..|ws|] == ws && b[..|ws'|] == ws';
    if rest == [] {
      assert a + rest == a && b + rest == b;
    } else {
      assert (a + rest)[..|a + rest| - 1] == a + rest[..|rest| - 1];
      assert (b + rest)[..|b + rest| - 1] == b + rest[..|rest| - 1];
      SnapshotReplaces(ws, artifacts, rest[..|rest| - 1], ws');
    }
  }

  // ---- Extraction -------------------------------------------------------------------------

  function JoinLines(texts: seq<string>): string {
    if texts == [] then "" else if |texts| == 1 then texts[0] else texts[0] + "\n" + JoinLines(texts[1..])
  }

  function PartTexts(p: Part): seq<string> {
    if p.TextPart? && p.text != "" then [p.text] else []
  }

  function ArtifactTexts(a: Artifact): seq<string> { Flat(a.parts, PartTexts) }

  /** The parts of a status message. */
  function StatusParts(w: Wire): seq<Part> {
    match w
    case Update(InputRequiredFrame(prompt)) => [TextPart(prompt)]
    case Update(FailedFrame(message)) => [TextPart(message)]
    case Status(_, _, parts) => parts
    case _ => []
  }

  function Extract(arts: seq<Artifact>, status: Wire): string {
    Strip(JoinLines(Flat(arts, ArtifactTexts) + Flat(StatusParts(status), PartTexts)))
  }

  function PhaseOf(w: Wire): Phase {
    match w
    case Update(CompletedFrame) => Over(Completed)
    case Update(FailedFrame(_)) => Over(Failed)
    case Update(InputRequiredFrame(_)) => Over(Parked)
    case Status(phase, _, _) => phase
    case _ => Working
  }

  /** A status ends the stream when it is terminal or marked as the last. */
  predicate EndsTurn(w: Wire) {
    PhaseOf(w).Over? || (w.Status? && w.last)
  }

  /** The reply at the first status that ends the stream; none if there is none. */
  function ReplyTo(ws: seq<Wire>): Option<Reply> {
    if ws == [] then None else
    var earlier, w := ReplyTo(ws[..|ws| - 1]), ws[|ws| - 1];
    if earlier.Some? || !EndsTurn(w) then earlier else
    var arts := Reassemble(ws[..|ws| - 1]);
    Some(Reply(PhaseOf(w), Extract(arts, w), arts))
  }

  /** Drains a stream frame by frame, stopping at the first status that ends it. */
  method ConsumeSse(ws: seq<Wire>) returns (final: Option<Reply>)
    ensures final == ReplyTo(ws)
  {
    var artifacts: seq<Artifact> := [];
    var i := 0;
    while i < |ws|
      invariant i <= |ws|
      invariant artifacts == Reassemble(ws[..i])
      invariant ReplyTo(ws[..i]) == None
    {
      assert ws[..i + 1][..i] == ws[..i];
      var w := ws[i];
      if w.Snapshot? {
        artifacts := if w.artifacts == [] then artifacts else w.artifacts;
      } else if w.Update? && w.frame.ArtifactFrame? {
        var at := FindArtifact(artifacts, w.frame.id);
        if at == |artifacts| {
          artifacts := artifacts + [Artifact(w.frame.id, w.frame.parts)];
        } else if w.frame.append {
          artifacts := artifacts[at := Artifact(w.frame.id, artifacts[at].parts + w.frame.parts)];
        } else {
          artifacts := artifacts[at := Artifact(w.frame.id, w.frame.parts)];
        }
      } else if EndsTurn(w) {
        var text := Extract(artifacts, w);
        final := Some(Reply(PhaseOf(w), text, artifacts));
        ReplyStays(ws, i + 1);
        return;
      }
      i := i + 1;
    }
    assert ws[..i] == ws;
    return None;
  }

  method FindArtifact(arts: seq<Artifact>, id: string) returns (i: nat)
    ensures i == IndexOf(arts, id)
  {
    i := 0;
    while i < |arts| && arts[i].id != id
      invariant i <= |arts|
      invariant forall k :: 0 <= k < i ==> arts[k].id != id
    {
      i := i + 1;
    }
  }

  lemma {:induction false} ReplyStays(ws: seq<Wire>, i: nat)
    requires i <= |ws| && ReplyTo(ws[..i]).Some?
    ensures ReplyTo(ws) == ReplyTo(ws[..i])
  {
    if i == |ws| {
      assert ws[..i] == ws;
    } else {
      assert ws[..|ws| - 1][..i] == ws[..i];
      ReplyStays(ws[..|ws| - 1], i);
    }
  }

  // ---- The round trip ------------------------------------------------------------------------

  function Updates(fs: seq<Frame>): seq<Wire> {
    seq(|fs|, i requires 0 <= i < |fs| => Update(fs[i]))
  }

  lemma ReassembleSnoc(fs: seq<Frame>)
    requires fs != []
    ensures var n := |fs| - 1;
            && Reassemble(Updates(fs)) == Absorb(Reassemble(Updates(fs[..n])), Update(fs[n]))
            && (HasChunk(fs) <==> HasChunk(fs[..n]) || fs[n].ArtifactFrame?)
  {
    var n := |fs| - 1;
    assert Updates(fs)[..n] == Updates(fs[..n]);
    HasChunkJoin(fs[..n], [fs[n]]);
    assert fs == fs[..n] + [fs[n]];
    assert HasChunk([fs[n]]) <==> fs[n].ArtifactFrame? by { assert [fs[n]][0] == fs[n]; }
  }

  /** Reassembling frames that all belong to one artifact leaves at most that artifact. */
  lemma {:induction false} OneArtifact(fs: seq<Frame>, id: string)
    requires forall f :: f in fs && f.ArtifactFrame? ==> f.id == id
    ensures var arts := Reassemble(Updates(fs));
            && |arts| <= 1 && (forall a :: a in arts ==> a.id == id)
            && (arts == [] <==> !HasChunk(fs))
  {
    if fs != [] {
      OneArtifact(fs[..|fs| - 1], id);
      ReassembleSnoc(fs);
    }
  }

  lemma {:induction false} NoReplyBeforeTerminal(fs: seq<Frame>)
    requires forall f :: f in fs ==> !EndsTurn(Update(f))
    ensures ReplyTo(Updates(fs)) == None
  {
    if fs != [] {
      assert Updates(fs)[..|fs| - 1] == Updates(fs[..|fs| - 1]);
      NoReplyBeforeTerminal(fs[..|fs| - 1]);
    }
  }

  /** Every streamed chunk carries some text. */
  lemma {:induction false} ChunksAreNonempty(id: string, run: seq<Timed>)
    ensures forall f :: f in Run(id, run).frames && f.ArtifactFrame? ==> FrameText(f) != ""
  {
    if run != [] {
      var b, t := Run(id, run[..|run| - 1]), run[|run| - 1];
      ChunksAreNonempty(id, run[..|run| - 1]);
      EmittedChunkHasText(id, b, t);
    }
  }

  /** The one chunk an event can send. */
  lemma EmittedChunk(id: string, b: Buffers, t: Timed, f: Frame)
    requires f in Emitted(id, b.text, b.thought, b.started, t.0, t.1) && f.ArtifactFrame?
    ensures f in TextFlush(id, if t.0.Text? then b.text + t.0.text else b.text, b.started)
  {
  }

  lemma EmittedChunkHasText(id: string, b: Buffers, t: Timed)
    ensures forall f :: f in Emitted(id, b.text, b.thought, b.started, t.0, t.1) && f.ArtifactFrame? ==>
              FrameText(f) != ""
  {
    var text := if t.0.Text? then b.text + t.0.text else b.text;
    forall f | f in Emitted(id, b.text, b.thought, b.started, t.0, t.1) && f.ArtifactFrame? ensures FrameText(f) != "" {
      EmittedChunk(id, b, t, f);
      ChunkShows(id, text, b.started);
    }
  }

  /** What a turn streams before it closes: frames of its own artifact only, each chunk with
      some text. */
  lemma FlushedFrames(id: string, run: seq<Timed>)
    ensures forall f :: f in Flushed(id, run) ==>
              Streamed(f) && (f.ArtifactFrame? ==> f.id == id && FrameText(f) != "")
  {
    ChunksBuildOneArtifact(id, run);
    ChunksAreNonempty(id, run);
    FlatOne(TextPart(Run(id, run).text), PartText);
  }

  lemma FlushedText(id: string, run: seq<Timed>)
    ensures ChunkText(Flushed(id, run)) == TextOf(Events(run))
  {
    var b := Run(id, run);
    FlatJoin(b.frames, ReasoningFlush(b.thought) + TextFlush(id, b.text, b.started), FrameText);
    FlatJoin(ReasoningFlush(b.thought), TextFlush(id, b.text, b.started), FrameText);
    FlushTexts(id, b.text, b.thought, b.started);
    NoTextIsLost(id, run);
  }

  lemma ChunkHasText(fs: seq<Frame>, q: nat)
    requires q < |fs| && FrameText(fs[q]) != ""
    ensures ChunkText(fs) != ""
  {
    assert fs == fs[..q] + [fs[q]] + fs[q + 1..];
    ThreeJoin(fs[..q], [fs[q]], fs[q + 1..], FrameText);
    FlatOne(fs[q], FrameText);
  }

  /** A turn whose events carried no text sends no chunk that could arrive. */
  lemma NoTextNoChunk(id: string, run: seq<Timed>, delivered: seq<Frame>)
    requires TextOf(Events(run)) == "" && forall f :: f in delivered ==> f in Flushed(id, run)
    ensures !HasChunk(delivered)
  {
    var all := Flushed(id, run);
    FlushedFrames(id, run);
    FlushedText(id, run);
    forall f | f in delivered ensures !f.ArtifactFrame? {
      var q :| 0 <= q < |all| && all[q] == f;
      if f.ArtifactFrame? { ChunkHasText(all, q); }
    }
  }

  lemma RepliesAtCompletion(sent: seq<Frame>)
    requires forall f :: f in sent ==> !EndsTurn(Update(f))
    ensures var arts := Reassemble(Updates(sent));
            ReplyTo(Updates(sent + [CompletedFrame]))
            == Some(Reply(Over(Completed), Extract(arts, Update(CompletedFrame)), arts))
  {
    assert Updates(sent + [CompletedFrame])[..|sent|] == Updates(sent);
    NoReplyBeforeTerminal(sent);
  }

  lemma ExtractsTheAnswer(arts: seq<Artifact>, answer: string)
    requires Flat(arts, ArtifactTexts) == if answer == "" then [] else [answer]
    ensures Extract(arts, Update(CompletedFrame)) == Strip(answer)
  {
    assert Flat(arts, ArtifactTexts) + [] == Flat(arts, ArtifactTexts);
  }

  /** A closing artifact replaces whatever arrived under its id. */
  lemma ClosingReplaces(delivered: seq<Frame>, f: Frame)
    requires f.ArtifactFrame? && !f.append
    requires forall g :: g in delivered && g.ArtifactFrame? ==> g.id == f.id
    ensures Reassemble(Updates(delivered + [f])) == [Artifact(f.id, f.parts)]
  {
    OneArtifact(delivered, f.id);
    assert (delivered + [f])[..|delivered|] == delivered;
    ReassembleSnoc(delivered + [f]);
  }

  function Closing(id: string, run: seq<Timed>, stop: Stop, structured: Option<string>): seq<Frame> {
    ClosingFrames(id, AnswerOf(run, stop), TurnCounters.CountAll(Events(run)),
                  Flat(Events(run), EventDelta), structured)
  }

  lemma ArtifactsAtClose(id: string, run: seq<Timed>, stop: Stop, structured: Option<string>, delivered: seq<Frame>)
    requires Completes(stop)
    requires forall f :: f in delivered ==> f in Flushed(id, run)
    ensures var arts := Reassemble(Updates(delivered + Closing(id, run, stop, structured)));
            Flat(arts, ArtifactTexts) == if AnswerOf(run, stop) == "" then [] else [AnswerOf(run, stop)]
  {
    var answer, closing := AnswerOf(run, stop), Closing(id, run, stop, structured);
    FlushedFrames(id, run);
    if closing == [] {
      assert delivered + closing == delivered;
      NoTextNoChunk(id, run, delivered);
      OneArtifact(delivered, id);
    } else {
      assert closing == [closing[0]];
      ClosingReplaces(delivered, closing[0]);
      ClosingTexts(answer, TurnCounters.CountAll(Events(run)), structured);
      FlatOne(Artifact(id, closing[0].parts), ArtifactTexts);
    }
  }

  lemma NothingEndsEarly(id: string, run: seq<Timed>, stop: Stop, structured: Option<string>, delivered: seq<Frame>)
    requires forall f :: f in delivered ==> f in Flushed(id, run)
    ensures forall f :: f in delivered + Closing(id, run, stop, structured) ==> !EndsTurn(Update(f))
  {
    FlushedFrames(id, run);
  }

  /** Round trip under loss.  Whatever the producer streams, whenever the buffers are flushed,
      and whichever of the streamed frames arrive (in any number), the client of a completed
      turn holds the answer exactly once and replies with it, trimmed. */
  lemma AnswerSurvivesLoss(id: string, run: seq<Timed>, stop: Stop, structured: Option<string>, delivered: seq<Frame>)
    requires Completes(stop)
    requires forall f :: f in delivered ==> f in Flushed(id, run)
    ensures var answer := AnswerOf(run, stop);
            var reply := ReplyTo(Updates(delivered + Closing(id, run, stop, structured) + [CompletedFrame]));
            && reply.Some? && reply.value.phase == Over(Completed)
            && reply.value.text == Strip(answer)
            && Flat(reply.value.artifacts, ArtifactTexts) == if answer == "" then [] else [answer]
  {
    var sent := delivered + Closing(id, run, stop, structured);
    NothingEndsEarly(id, run, stop, structured, delivered);
    RepliesAtCompletion(sent);
    ArtifactsAtClose(id, run, stop, structured, delivered);
    ExtractsTheAnswer(Reassemble(Updates(sent)), AnswerOf(run, stop));
  }

  /** End to end: fed the frame log of a turn that completes, the client replies with its outcome. */
  lemma CompletedTurnRoundTrip(id: string, events: seq<Timed>, ending: Ending, structured: Option<string>)
    requires Completes(StopOf(events, ending))
    ensures var run, stop := Handled(events), StopOf(events, ending);
            var reply := ReplyTo(Updates(AllFrames(id, run, stop, structured)));
            && reply.Some? && reply.value.phase == Over(OutcomeOf(run, stop).state)
            && reply.value.text == Strip(OutcomeOf(run, stop).text)
  {
    var run := Handled(events);
    AnswerSurvivesLoss(id, run, StopOf(events, ending), structured, Flushed(id, run));
  }

  // ---- Turns that fail, pause or are canceled --------------------------------------------------

  /** Nothing that ends the stream: no closing frame of a turn, no status that is terminal or last. */
  predicate GoesOn(w: Wire) {
    match w
    case Snapshot(_) => true
    case Update(f) => !f.CompletedFrame? && !f.FailedFrame? && !f.InputRequiredFrame?
    case Status(phase, last, _) => phase.Working? && !last
  }

  lemma {:induction false} NoReplyYet(ws: seq<Wire>)
    requires forall w :: w in ws ==> GoesOn(w)
    ensures ReplyTo(ws) == None
  {
    if ws != [] {
      NoReplyYet(ws[..|ws| - 1]);
      assert GoesOn(ws[|ws| - 1]);
    }
  }

  /** The first wire frame that ends the stream is the one replied to, whatever follows it. */
  lemma RepliesToTheFirst(ws: seq<Wire>, w: Wire, rest: seq<Wire>)
    requires (forall v :: v in ws ==> GoesOn(v)) && !GoesOn(w)
    ensures ReplyTo(ws + [w] + rest) == Some(Reply(PhaseOf(w), Extract(Reassemble(ws), w), Reassemble(ws)))
  {
    var upto := ws + [w];
    NoReplyYet(ws);
    assert upto[..|ws|] == ws;
    assert (upto + rest)[..|upto|] == upto;
    ReplyStays(upto + rest, |upto|);
  }

  lemma {:induction false} LastLine(lines: seq<string>, m: string) returns (before: string)
    ensures JoinLines(lines + [m]) == before + m
    ensures before == "" || before[|before| - 1] == '\n'
  {
    if lines == [] {
      before := "";
      assert lines + [m] == [m] && before + m == m;
    } else {
      var rest := LastLine(lines[1..], m);
      before := lines[0] + "\n" + rest;
      assert (lines + [m])[1..] == lines[1..] + [m];
      assert lines[0] + "\n" + (rest + m) == before + m;
    }
  }

  /** A status whose last words these are: they are the last line of the reply, before it is trimmed. */
  lemma LastWords(arts: seq<Artifact>, w: Wire, said: seq<string>, m: string) returns (before: string)
    requires Flat(StatusParts(w), PartTexts) == said + [m]
    ensures Extract(arts, w) == Strip(before + m) && (before == "" || before[|before| - 1] == '\n')
  {
    var lines := Flat(arts, ArtifactTexts) + said;
    before := LastLine(lines, m);
    assert Flat(arts, ArtifactTexts) + (said + [m]) == lines + [m];
  }

  lemma OneWord(arts: seq<Artifact>, w: Wire, m: string) returns (before: string)
    requires StatusParts(w) == [TextPart(m)]
    ensures Extract(arts, w) == Strip(before + m)
    ensures m != "" ==> before == "" || before[|before| - 1] == '\n'
  {
    FlatOne(TextPart(m), PartTexts);
    if m == "" {
      before := JoinLines(Flat(arts, ArtifactTexts));
      assert Flat(arts, ArtifactTexts) + [] == Flat(arts, ArtifactTexts) && before + m == before;
    } else {
      assert [] + [m] == [m];
      before := LastWords(arts, w, [], m);
    }
  }

  /** A failure is reported as one: whatever was streamed before it and whatever comes after, the
      reply says the task failed, and its last line is the message. */
  lemma FailureIsReported(ws: seq<Wire>, m: string, rest: seq<Wire>) returns (before: string)
    requires forall w :: w in ws ==> GoesOn(w)
    ensures var reply := ReplyTo(ws + [Update(FailedFrame(m))] + rest);
            && reply.Some? && reply.value.phase == Over(Failed)
            && reply.value.text == Strip(before + m) && reply.value.artifacts == Reassemble(ws)
    ensures m != "" ==> before == "" || before[|before| - 1] == '\n'
  {
    RepliesToTheFirst(ws, Update(FailedFrame(m)), rest);
    before := OneWord(Reassemble(ws), Update(FailedFrame(m)), m);
  }

  /** So is a pause for input, with its prompt. */
  lemma PauseIsReported(ws: seq<Wire>, prompt: string, rest: seq<Wire>) returns (before: string)
    requires forall w :: w in ws ==> GoesOn(w)
    ensures var reply := ReplyTo(ws + [Update(InputRequiredFrame(prompt))] + rest);
            && reply.Some? && reply.value.phase == Over(Parked)
            && reply.value.text == Strip(before + prompt) && reply.value.artifacts == Reassemble(ws)
    ensures prompt != "" ==> before == "" || before[|before| - 1] == '\n'
  {
    RepliesToTheFirst(ws, Update(InputRequiredFrame(prompt)), rest);
    before := OneWord(Reassemble(ws), Update(InputRequiredFrame(prompt)), prompt);
  }

  /** A status of the server's own ends the stream if it is terminal or marked as the last, and the
      reply is in the state it names, with its last words last. */
  lemma ServerStatusIsReported(ws: seq<Wire>, phase: Phase, last: bool, parts: seq<Part>, said: seq<string>,
                               m: string, rest: seq<Wire>) returns (before: string)
    requires (forall w :: w in ws ==> GoesOn(w)) && (phase.Over? || last)
    requires Flat(parts, PartTexts) == said + [m]
    ensures var reply := ReplyTo(ws + [Status(phase, last, parts)] + rest);
            && reply.Some? && reply.value.phase == phase
            && reply.value.text == Strip(before + m) && reply.value.artifacts == Reassemble(ws)
    ensures before == "" || before[|before| - 1] == '\n'
  {
    RepliesToTheFirst(ws, Status(phase, last, parts), rest);
    before := LastWords(Reassemble(ws), Status(phase, last, parts), said, m);
  }

  /** One that says nothing leaves the text of the artifacts. */
  lemma SilentStatusIsReported(ws: seq<Wire>, phase: Phase, last: bool, rest: seq<Wire>)
    requires (forall w :: w in ws ==> GoesOn(w)) && (phase.Over? || last)
    ensures var reply := ReplyTo(ws + [Status(phase, last, [])] + rest);
            && reply.Some? && reply.value.phase == phase && reply.value.artifacts == Reassemble(ws)
            && reply.value.text == Strip(JoinLines(Flat(Reassemble(ws), ArtifactTexts)))
  {
    RepliesToTheFirst(ws, Status(phase, last, []), rest);
    assert Flat(Reassemble(ws), ArtifactTexts) + [] == Flat(Reassemble(ws), ArtifactTexts);
  }

  lemma FlushesAppend(id: string, run: seq<Timed>)
    ensures ChunksAppend(id, Run(id, run).frames + ReasoningFlush(Run(id, run).thought))
    ensures ChunksAppend(id, Flushed(id, run))
  {
    var b := Run(id, run);
    ChunksBuildOneArtifact(id, run);
    MoreFramesAppend(id, b.frames, ReasoningFlush(b.thought));
    FlushPairAppends(id, b);
    MoreFramesAppend(id, b.frames, ReasoningFlush(b.thought) + TextFlush(id, b.text, b.started));
  }

  lemma FlushPairAppends(id: string, b: Buffers)
    ensures var more := ReasoningFlush(b.thought) + TextFlush(id, b.text, b.started);
            && (forall p :: 0 <= p < |more| ==> Streamed(more[p]))
            && (forall p :: 0 <= p < |more| && more[p].ArtifactFrame? ==>
                  more[p].id == id && !HasChunk(more[..p]) && more[p].append == b.started)
  {
  }

  lemma ThoughtShowsNoText(id: string, run: seq<Timed>)
    ensures ChunkText(Run(id, run).frames + ReasoningFlush(Run(id, run).thought)) == ChunkText(Run(id, run).frames)
  {
    var b := Run(id, run);
    FlatJoin(b.frames, ReasoningFlush(b.thought), FrameText);
    FlushTexts(id, b.text, b.thought, b.started);
  }

  lemma ThoughtSplits(fs: seq<Frame>, gs: seq<Frame>, hs: seq<Frame>)
    ensures ThoughtText(fs + gs) == ThoughtText(fs) + ThoughtText(gs)
    ensures ThoughtText(fs + (gs + hs)) == ThoughtText(fs) + ThoughtText(gs) + ThoughtText(hs)
  {
    FlatJoin(fs, gs, FrameThought);
    ThreeJoin(fs, gs, hs, FrameThought);
    assert fs + (gs + hs) == fs + gs + hs;
  }

  lemma FlushedThought(id: string, run: seq<Timed>)
    ensures ThoughtText(Run(id, run).frames + ReasoningFlush(Run(id, run).thought)) == ReasonOf(Events(run))
    ensures ThoughtText(Flushed(id, run)) == ReasonOf(Events(run))
  {
    var b := Run(id, run);
    NoThoughtIsLost(id, run);
    FlushThoughts(id, b.text, b.thought, b.started);
    ThoughtSplits(b.frames, ReasoningFlush(b.thought), TextFlush(id, b.text, b.started));
    assert ReasonOf(Events(run)) + "" == ReasonOf(Events(run));
  }

  predicate Silent(fs: seq<Frame>) {
    forall i :: 0 <= i < |fs| ==> FrameText(fs[i]) == "" && FrameThought(fs[i]) == ""
  }

  /** Frames that show neither text nor reasoning behind others. */
  lemma SilentBehind(fs: seq<Frame>, more: seq<Frame>)
    requires Silent(more)
    ensures ChunkText(fs + more) == ChunkText(fs) && ThoughtText(fs + more) == ThoughtText(fs)
  {
    FlatJoin(fs, more, FrameText);
    FlatJoin(fs, more, FrameThought);
    SilentFrames(more);
  }

  lemma {:induction false} SilentFrames(more: seq<Frame>)
    requires Silent(more)
    ensures ChunkText(more) == "" && ThoughtText(more) == ""
  {
    if more != [] { SilentFrames(more[..|more| - 1]); }
  }

  /** The frames that close a turn, behind the flush of its buffers. */
  lemma CloseIsSilent(id: string, run: seq<Timed>, stop: Stop, structured: Option<string>) returns (close: seq<Frame>)
    requires stop.AtEvent? ==> stop.e.Done? || stop.e.InputRequired?
    requires stop.AtEnd? ==> stop.ending.EndOfStream? || stop.ending.exc.Stalled?
    ensures AllFrames(id, run, stop, structured) == Flushed(id, run) + close && Silent(close)
  {
    if Completes(stop) {
      close := Closing(id, run, stop, structured) + [CompletedFrame];
      assert Flushed(id, run) + Closing(id, run, stop, structured) + [CompletedFrame] == Flushed(id, run) + close;
    } else if stop.AtEvent? {
      close := [InputRequiredFrame(stop.e.prompt)];
    } else {
      close := [FailedFrame(stop.ending.exc.message)];
    }
  }

  /** Where a turn completes, pauses or stalls, all text and reasoning it had buffered is streamed
      before it closes; where the producer reports an error, all reasoning. */
  lemma ClosingStreamsTheRest(id: string, run: seq<Timed>, stop: Stop, structured: Option<string>)
    requires stop.AtEvent? ==> stop.e.Done? || stop.e.InputRequired?
    requires stop.AtEnd? ==> stop.ending.EndOfStream? || stop.ending.exc.Stalled?
    ensures ChunkText(AllFrames(id, run, stop, structured)) == TextOf(Events(run))
    ensures ThoughtText(AllFrames(id, run, stop, structured)) == ReasonOf(Events(run))
  {
    var close := CloseIsSilent(id, run, stop, structured);
    SilentBehind(Flushed(id, run), close);
    FlushedText(id, run);
    FlushedThought(id, run);
  }

  lemma ErrorStreamsTheReasoning(id: string, run: seq<Timed>, message: string, structured: Option<string>)
    ensures ThoughtText(AllFrames(id, run, AtEvent(Error(message)), structured)) == ReasonOf(Events(run))
  {
    SilentBehind(Run(id, run).frames + ReasoningFlush(Run(id, run).thought), [FailedFrame(message)]);
    FlushedThought(id, run);
  }

  lemma StreamedGoOn(id: string, fs: seq<Frame>)
    requires ChunksAppend(id, fs)
    ensures forall w :: w in Updates(fs) ==> GoesOn(w)
  {
  }

  lemma UpdatesSnoc(fs: seq<Frame>, f: Frame)
    ensures Updates(fs + [f]) == Updates(fs) + [Update(f)] + []
  {
  }

  /** End to end: fed the frame log of a turn that failed, the client replies that it failed, with
      the error as its last line, and holds the text the turn had sent: all of it after a stall,
      all but the unsent buffer after an error or a crash. */
  lemma FailedTurnRoundTrip(id: string, events: seq<Timed>, ending: Ending, structured: Option<string>, m: string)
    returns (before: string)
    requires var stop := StopOf(events, ending);
             stop == AtEvent(Error(m)) || stop == AtEnd(Breaks(Crashed(m))) || stop == AtEnd(Breaks(Stalled(m)))
    ensures var run, stop := Handled(events), StopOf(events, ending);
            var reply := ReplyTo(Updates(AllFrames(id, run, stop, structured)));
            && reply.Some? && reply.value.phase == Over(Failed) && reply.value.text == Strip(before + m)
            && Shown(reply.value.artifacts) + (if stop == AtEnd(Breaks(Stalled(m))) then "" else Run(id, run).text)
               == TextOf(Events(run))
    ensures m != "" ==> before == "" || before[|before| - 1] == '\n'
  {
    var run, stop := Handled(events), StopOf(events, ending);
    var sent := SentBeforeFailure(id, run, stop, structured, m);
    UpdatesSnoc(sent, FailedFrame(m));
    StreamedGoOn(id, sent);
    before := FailureIsReported(Updates(sent), m, []);
    LosslessFrames(id, sent);
  }

  /** What a failed turn sends ahead of its failure frame. */
  lemma SentBeforeFailure(id: string, run: seq<Timed>, stop: Stop, structured: Option<string>, m: string)
    returns (sent: seq<Frame>)
    requires stop == AtEvent(Error(m)) || stop == AtEnd(Breaks(Crashed(m))) || stop == AtEnd(Breaks(Stalled(m)))
    ensures AllFrames(id, run, stop, structured) == sent + [FailedFrame(m)] && ChunksAppend(id, sent)
    ensures ChunkText(sent) + (if stop == AtEnd(Breaks(Stalled(m))) then "" else Run(id, run).text)
            == TextOf(Events(run))
  {
    var b := Run(id, run);
    FlushesAppend(id, run);
    NoTextIsLost(id, run);
    if stop.AtEvent? {
      sent := b.frames + ReasoningFlush(b.thought);
      ThoughtShowsNoText(id, run);
    } else if stop == AtEnd(Breaks(Stalled(m))) {
      sent := Flushed(id, run);
      FlushedText(id, run);
      assert TextOf(Events(run)) + "" == TextOf(Events(run));
    } else {
      sent := b.frames;
      ChunksBuildOneArtifact(id, run);
    }
  }

  /** A turn paused for input: the client is told so, with the prompt as the last line, and holds all
      the text of the turn. */
  lemma ParkedTurnRoundTrip(id: string, events: seq<Timed>, ending: Ending, structured: Option<string>, prompt: string)
    returns (before: string)
    requires StopOf(events, ending) == AtEvent(InputRequired(prompt))
    ensures var run := Handled(events);
            var reply := ReplyTo(Updates(AllFrames(id, run, StopOf(events, ending), structured)));
            && reply.Some? && reply.value.phase == Over(Parked) && reply.value.text == Strip(before + prompt)
            && Shown(reply.value.artifacts) == TextOf(Events(run))
    ensures prompt != "" ==> before == "" || before[|before| - 1] == '\n'
  {
    var sent := Flushed(id, Handled(events));
    FlushesAppend(id, Handled(events));
    FlushedText(id, Handled(events));
    UpdatesSnoc(sent, InputRequiredFrame(prompt));
    StreamedGoOn(id, sent);
    before := PauseIsReported(Updates(sent), prompt, []);
    LosslessFrames(id, sent);
  }

  /** A canceled turn sends nothing the client could reply to; the server's own status ends the
      stream, and the client holds all the text but the unsent buffer. */
  lemma CanceledTurnRoundTrip(id: string, events: seq<Timed>, ending: Ending, structured: Option<string>, last: bool)
    requires StopOf(events, ending) == AtEnd(Breaks(Cancelled))
    ensures var run := Handled(events);
            var wires := Updates(AllFrames(id, run, StopOf(events, ending), structured));
            var reply := ReplyTo(wires + [Status(Over(Canceled), last, [])] + []);
            && ReplyTo(wires) == None && reply.Some? && reply.value.phase == Over(Canceled)
            && Shown(reply.value.artifacts) + Run(id, run).text == TextOf(Events(run))
  {
    var run := Handled(events);
    var sent := Run(id, run).frames;
    ChunksBuildOneArtifact(id, run);
    StreamedGoOn(id, sent);
    NoReplyYet(Updates(sent));
    SilentStatusIsReported(Updates(sent), Over(Canceled), last, []);
    LosslessPrefix(id, run);
  }

  /** The closing artifact holds the answer as its only text part. */
  lemma ClosingTexts(answer: string, c: TurnCounters.Counters, structured: Option<string>)
    ensures Flat(ClosingParts(answer, c, structured), PartTexts) == if answer == "" then [] else [answer]
  {
    var parts := ClosingParts(answer, c, structured);
    var k := if answer == "" then 0 else 1;
    assert parts == parts[..k] + parts[k..];
    FlatJoin(parts[..k], parts[k..], PartTexts);
    AtMostOneText(parts[..k]);
    NoText(parts[k..]);
  }

  lemma {:induction false} NoText(parts: seq<Part>)
    requires forall p :: p in parts ==> !p.TextPart?
    ensures Flat(parts, PartTexts) == []
  {
    if parts != [] { NoText(parts[..|parts| - 1]); }
  }

  lemma AtMostOneText(parts: seq<Part>)
    requires |parts| <= 1
    ensures Flat(parts, PartTexts) == if parts == [] then [] else PartTexts(parts[0])
  {
  }

  /** What the reader has been shown so far. */
  function Shown(arts: seq<Artifact>): string {
    if arts == [] then "" else Flat(arts[0].parts, PartText)
  }

  /** With nothing lost, at every prefix of the events the client's artifact holds, joined,
      exactly what the turn has accumulated and no longer buffers. */
  lemma LosslessPrefix(id: string, run: seq<Timed>)
    ensures var arts := Reassemble(Updates(Run(id, run).frames));
            Shown(arts) + Run(id, run).text == TextOf(Events(run)) && |arts| <= 1
  {
    ChunksBuildOneArtifact(id, run);
    LosslessFrames(id, Run(id, run).frames);
    NoTextIsLost(id, run);
  }

  /** The first chunk, or one more appended to the only artifact, shows its text behind the rest. */
  lemma AppendingAdds(arts: seq<Artifact>, f: Frame)
    requires f.ArtifactFrame? && |arts| <= 1 && (forall a :: a in arts ==> a.id == f.id)
    requires f.append <==> arts != []
    ensures |Merge(arts, f)| == 1 && Shown(Merge(arts, f)) == Shown(arts) + Flat(f.parts, PartText)
  {
    if arts != [] { FlatJoin(arts[0].parts, f.parts, PartText); }
  }

  lemma PrefixAppends(id: string, fs: seq<Frame>)
    requires fs != [] && ChunksAppend(id, fs)
    ensures ChunksAppend(id, fs[..|fs| - 1])
  {
    var n := |fs| - 1;
    forall p | 0 <= p < n && fs[p].ArtifactFrame? ensures fs[..n][..p] == fs[..p] {}
  }

  lemma {:induction false} LosslessFrames(id: string, fs: seq<Frame>)
    requires ChunksAppend(id, fs)
    ensures var arts := Reassemble(Updates(fs));
            && |arts| <= 1 && (forall a :: a in arts ==> a.id == id) && (arts == [] <==> !HasChunk(fs))
            && ChunkText(fs) == Shown(arts)
  {
    OneArtifact(fs, id);
    if fs != [] {
      var n := |fs| - 1;
      ReassembleSnoc(fs);
      PrefixAppends(id, fs);
      LosslessFrames(id, fs[..n]);
      var before := Reassemble(Updates(fs[..n]));
      if fs[n].ArtifactFrame? { AppendingAdds(before, fs[n]); }
    }
  }
}
