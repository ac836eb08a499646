/** A turn as a fold over its events: what each event emits and leaves buffered, what it
    adds to the counters, and what every run of the fold keeps. */
module TurnRun {
  import opened Wrappers
  import opened TurnLog

  /** An event and whether the buffer it touches is old enough to flush. */
  type Timed = (Event, bool)

  function Events(run: seq<Timed>): seq<Event> {
    seq(|run|, i requires 0 <= i < |run| => run[i].0)
  }

  // ---- What one event makes the turn emit --------------------------------------------------------

  const FLUSH_CHARS := 24

  /** A buffer goes out when it is large enough, or not empty and old enough (`due`). */
  predicate ShouldFlush(buf: string, due: bool) {
    |buf| >= FLUSH_CHARS || (buf != "" && due)
  }

  function ReasoningFlush(buf: string): seq<Frame> {
    if buf == "" then [] else [ReasoningFrame(buf)]
  }

  function TextFlush(id: string, buf: string, started: bool): seq<Frame> {
    if buf == "" then [] else [ArtifactFrame(id, [TextPart(buf)], started, false)]
  }

  function ToolFrames(end: bool, tool: ToolPayload): seq<Frame> {
    if CardOf(end, tool) == [] then [] else [ToolFrame(end, tool)]
  }

  /** The frames emitted for a non-terminal event, given both buffers before it. */
  function Emitted(id: string, text: string, thought: string, started: bool, e: Event, due: bool): seq<Frame> {
    match e
    case Reasoning(more) =>
      if more != "" && ShouldFlush(thought + more, due) then ReasoningFlush(thought + more) else []
    case Text(more) =>
      ReasoningFlush(thought) + if ShouldFlush(text + more, due) then TextFlush(id, text + more, started) else []
    case ToolStart(tool) => ReasoningFlush(thought) + TextFlush(id, text, started) + ToolFrames(false, tool)
    case ToolEnd(tool) => ReasoningFlush(thought) + TextFlush(id, text, started) + ToolFrames(true, tool)
    case Component(Some(c)) => ReasoningFlush(thought) + [ComponentFrame(c)]
    case _ => ReasoningFlush(thought)
  }

  // ---- The buffers, event by event ---------------------------------------------------------

  /** The text buffer after a non-terminal event. */
  function TextAfter(text: string, e: Event, due: bool): string {
    match e
    case Text(more) => if ShouldFlush(text + more, due) then "" else text + more
    case ToolStart(_) => ""
    case ToolEnd(_) => ""
    case _ => text
  }

  /** The reasoning buffer after a non-terminal event. */
  function ThoughtAfter(thought: string, e: Event, due: bool): string {
    match e
    case Reasoning(more) =>
      if more == "" then thought else if ShouldFlush(thought + more, due) then "" else thought + more
    case _ => ""
  }

  predicate StartedAfter(text: string, started: bool, e: Event, due: bool) {
    match e
    case Text(more) => started || (text + more != "" && ShouldFlush(text + more, due))
    case ToolStart(_) => started || text != ""
    case ToolEnd(_) => started || text != ""
    case _ => started
  }

  datatype Buffers = Buffers(frames: seq<Frame>, text: string, thought: string, started: bool)

  function Step(id: string, b: Buffers, t: Timed): Buffers {
    Buffers(b.frames + Emitted(id, b.text, b.thought, b.started, t.0, t.1),
            TextAfter(b.text, t.0, t.1), ThoughtAfter(b.thought, t.0, t.1),
            StartedAfter(b.text, b.started, t.0, t.1))
  }

  function Run(id: string, run: seq<Timed>): Buffers {
    if run == [] then Buffers([], "", "", false) else Step(id, Run(id, run[..|run| - 1]), run[|run| - 1])
  }

  lemma EventsSnoc(run: seq<Timed>)
    requires run != []
    ensures Events(run) == Events(run[..|run| - 1]) + [run[|run| - 1].0]
  {
  }

  // ---- Nothing is lost ------------------------------------------------------------------------

  /** What the frames of one event show, for any reading of frames. */
  lemma EmittedShows<T>(id: string, b: Buffers, t: Timed, shows: Frame -> seq<T>)
    ensures var thought, text := Flat(ReasoningFlush(b.thought), shows), Flat(TextFlush(id, b.text, b.started), shows);
            Flat(Emitted(id, b.text, b.thought, b.started, t.0, t.1), shows)
            == match t.0
               case Reasoning(more) =>
                 if more != "" && ShouldFlush(b.thought + more, t.1)
                 then shows(ReasoningFrame(b.thought + more)) else []
               case Text(more) =>
                 thought + if ShouldFlush(b.text + more, t.1)
                           then shows(ArtifactFrame(id, [TextPart(b.text + more)], b.started, false)) else []
               case ToolStart(tool) => thought + text + Flat(ToolFrames(false, tool), shows)
               case ToolEnd(tool) => thought + text + Flat(ToolFrames(true, tool), shows)
               case Component(Some(c)) => thought + shows(ComponentFrame(c))
               case _ => thought
  {
    match t.0
    case Reasoning(more) => FlatOne(ReasoningFrame(b.thought + more), shows);
    case Text(more) =>
      FlatOne(ArtifactFrame(id, [TextPart(b.text + more)], b.started, false), shows);
      FlatJoin(ReasoningFlush(b.thought), [ArtifactFrame(id, [TextPart(b.text + more)], b.started, false)], shows);
      assert ReasoningFlush(b.thought) + [] == ReasoningFlush(b.thought);
    case ToolStart(tool) =>
      ThreeJoin(ReasoningFlush(b.thought), TextFlush(id, b.text, b.started), ToolFrames(false, tool), shows);
    case ToolEnd(tool) =>
      ThreeJoin(ReasoningFlush(b.thought), TextFlush(id, b.text, b.started), ToolFrames(true, tool), shows);
    case Component(Some(c)) =>
      FlatOne(ComponentFrame(c), shows);
      FlatJoin(ReasoningFlush(b.thought), [ComponentFrame(c)], shows);
    case _ =>
  }

  lemma ThreeJoin<A, T>(xs: seq<A>, ys: seq<A>, zs: seq<A>, shows: A -> seq<T>)
    ensures Flat(xs + ys + zs, shows) == Flat(xs, shows) + Flat(ys, shows) + Flat(zs, shows)
  {
    FlatJoin(xs + ys, zs, shows);
    FlatJoin(xs, ys, shows);
  }

  lemma FlushShows<T>(id: string, text: string, thought: string, started: bool, shows: Frame -> seq<T>)
    ensures Flat(ReasoningFlush(thought), shows) == if thought == "" then [] else shows(ReasoningFrame(thought))
    ensures Flat(TextFlush(id, text, started), shows)
            == if text == "" then [] else shows(ArtifactFrame(id, [TextPart(text)], started, false))
  {
  }

  lemma ToolShows<T>(end: bool, tool: ToolPayload, shows: Frame -> seq<T>)
    ensures Flat(ToolFrames(end, tool), shows) == if CardOf(end, tool) == [] then [] else shows(ToolFrame(end, tool))
  {
  }

  /** One event carries the whole of a reading forward: what it sends and leaves buffered is
      what was buffered before and what it adds. */
  lemma Carry<T>(sent: seq<T>, kept: seq<T>, whole: seq<T>, more: seq<T>, kept': seq<T>, added: seq<T>)
    requires sent + kept == whole && more + kept' == kept + added
    ensures (sent + more) + kept' == whole + added
  {
    assert (sent + more) + kept' == sent + (more + kept');
    assert sent + (kept + added) == (sent + kept) + added;
  }

  lemma StepReads<T>(id: string, run: seq<Timed>, fshows: Frame -> seq<T>, eshows: Event -> seq<T>)
    requires run != []
    ensures var b, t := Run(id, run[..|run| - 1]), run[|run| - 1];
            && Flat(Run(id, run).frames, fshows)
               == Flat(b.frames, fshows) + Flat(Emitted(id, b.text, b.thought, b.started, t.0, t.1), fshows)
            && Flat(Events(run), eshows) == Flat(Events(run[..|run| - 1]), eshows) + eshows(t.0)
  {
    var b, t := Run(id, run[..|run| - 1]), run[|run| - 1];
    EventsSnoc(run);
    FlatJoin(Events(run[..|run| - 1]), [t.0], eshows);
    FlatOne(t.0, eshows);
    FlatJoin(b.frames, Emitted(id, b.text, b.thought, b.started, t.0, t.1), fshows);
  }

  /** At every prefix of the events, the streamed chunks and the text still buffered are,
      joined, exactly the text of the events. */
  lemma {:induction false} NoTextIsLost(id: string, run: seq<Timed>)
    ensures ChunkText(Run(id, run).frames) + Run(id, run).text == TextOf(Events(run))
  {
    if run != [] {
      var b, t := Run(id, run[..|run| - 1]), run[|run| - 1];
      NoTextIsLost(id, run[..|run| - 1]);
      StepReads(id, run, FrameText, EventText);
      EmittedText(id, b, t);
      Carry(ChunkText(b.frames), b.text, TextOf(Events(run[..|run| - 1])),
            ChunkText(Emitted(id, b.text, b.thought, b.started, t.0, t.1)),
            TextAfter(b.text, t.0, t.1), EventText(t.0));
    }
  }

  /** Both flushes, read as text: reasoning shows nothing, a chunk shows its text. */
  lemma FlushTexts(id: string, text: string, thought: string, started: bool)
    ensures ChunkText(ReasoningFlush(thought)) == ""
    ensures ChunkText(TextFlush(id, text, started)) == text
    ensures FrameText(ArtifactFrame(id, [TextPart(text)], started, false)) == text
  {
    FlushShows(id, text, thought, started, FrameText);
    FlatOne(TextPart(text), PartText);
  }

  lemma EmittedText(id: string, b: Buffers, t: Timed)
    ensures ChunkText(Emitted(id, b.text, b.thought, b.started, t.0, t.1)) + TextAfter(b.text, t.0, t.1)
            == b.text + EventText(t.0)
  {
    if t.0.ToolStart? || t.0.ToolEnd? {
      EmittedTextAtCard(id, b, t);
    } else {
      EmittedShows(id, b, t, FrameText);
      FlushTexts(id, b.text, b.thought, b.started);
      if t.0.Text? { FlushTexts(id, b.text + t.0.text, b.thought, b.started); }
    }
  }

  lemma EmittedTextAtCard(id: string, b: Buffers, t: Timed)
    requires t.0.ToolStart? || t.0.ToolEnd?
    ensures ChunkText(Emitted(id, b.text, b.thought, b.started, t.0, t.1)) == b.text
  {
    EmittedShows(id, b, t, FrameText);
    FlushTexts(id, b.text, b.thought, b.started);
    ToolShows(t.0.ToolEnd?, t.0.tool, FrameText);
  }

  /** Likewise no reasoning is lost. */
  lemma {:induction false} NoThoughtIsLost(id: string, run: seq<Timed>)
    ensures ThoughtText(Run(id, run).frames) + Run(id, run).thought == ReasonOf(Events(run))
  {
    if run != [] {
      var b, t := Run(id, run[..|run| - 1]), run[|run| - 1];
      NoThoughtIsLost(id, run[..|run| - 1]);
      StepReads(id, run, FrameThought, EventThought);
      EmittedThought(id, b, t);
      Carry(ThoughtText(b.frames), b.thought, ReasonOf(Events(run[..|run| - 1])),
            ThoughtText(Emitted(id, b.text, b.thought, b.started, t.0, t.1)),
            ThoughtAfter(b.thought, t.0, t.1), EventThought(t.0));
    }
  }

  lemma FlushThoughts(id: string, text: string, thought: string, started: bool)
    ensures ThoughtText(ReasoningFlush(thought)) == thought
    ensures ThoughtText(TextFlush(id, text, started)) == ""
    ensures FrameThought(ArtifactFrame(id, [TextPart(text)], started, false)) == ""
  {
    FlushShows(id, text, thought, started, FrameThought);
  }

  lemma EmittedThought(id: string, b: Buffers, t: Timed)
    ensures ThoughtText(Emitted(id, b.text, b.thought, b.started, t.0, t.1)) + ThoughtAfter(b.thought, t.0, t.1)
            == b.thought + EventThought(t.0)
  {
    if t.0.ToolStart? || t.0.ToolEnd? {
      EmittedThoughtAtCard(id, b, t);
    } else {
      EmittedShows(id, b, t, FrameThought);
      FlushThoughts(id, b.text, b.thought, b.started);
      if t.0.Text? { FlushThoughts(id, b.text + t.0.text, b.thought, b.started); }
    }
  }

  lemma EmittedThoughtAtCard(id: string, b: Buffers, t: Timed)
    requires t.0.ToolStart? || t.0.ToolEnd?
    ensures ThoughtText(Emitted(id, b.text, b.thought, b.started, t.0, t.1)) == b.thought
  {
    EmittedShows(id, b, t, FrameThought);
    FlushThoughts(id, b.text, b.thought, b.started);
    ToolShows(t.0.ToolEnd?, t.0.tool, FrameThought);
  }

  // ---- Batching is invisible around tools ----------------------------------------------------------

  /** Un-batched, the frames show text and tool cards in the order of the events; what is
      still buffered comes last. */
  lemma {:induction false} TextAndToolsInOrder(id: string, run: seq<Timed>)
    ensures Flat(Run(id, run).frames, FrameTextItems) + Glyphs(Run(id, run).text)
            == Flat(Events(run), EventTextItems)
  {
    if run != [] {
      var b, t := Run(id, run[..|run| - 1]), run[|run| - 1];
      TextAndToolsInOrder(id, run[..|run| - 1]);
      StepReads(id, run, FrameTextItems, EventTextItems);
      EmittedTextItems(id, b, t);
      Carry(Flat(b.frames, FrameTextItems), Glyphs(b.text), Flat(Events(run[..|run| - 1]), EventTextItems),
            Flat(Emitted(id, b.text, b.thought, b.started, t.0, t.1), FrameTextItems),
            Glyphs(TextAfter(b.text, t.0, t.1)), EventTextItems(t.0));
    }
  }

  /** Both flushes, read as text items: reasoning shows nothing, a chunk shows its glyphs. */
  lemma FlushTextItems(id: string, text: string, thought: string, started: bool)
    ensures Flat(ReasoningFlush(thought), FrameTextItems) == []
    ensures Flat(TextFlush(id, text, started), FrameTextItems) == Glyphs(text)
    ensures FrameTextItems(ArtifactFrame(id, [TextPart(text)], started, false)) == Glyphs(text)
  {
    FlushShows(id, text, thought, started, FrameTextItems);
    FlatOne(TextPart(text), PartText);
  }

  lemma EmittedTextItems(id: string, b: Buffers, t: Timed)
    ensures Flat(Emitted(id, b.text, b.thought, b.started, t.0, t.1), FrameTextItems)
            + Glyphs(TextAfter(b.text, t.0, t.1))
            == Glyphs(b.text) + EventTextItems(t.0)
  {
    if t.0.ToolStart? || t.0.ToolEnd? {
      EmittedCardAfterText(id, b, t);
    } else {
      EmittedShows(id, b, t, FrameTextItems);
      FlushTextItems(id, b.text, b.thought, b.started);
      if t.0.Text? {
        FlushTextItems(id, b.text + t.0.text, b.thought, b.started);
        GlyphsJoin(b.text, t.0.text);
      }
    }
  }

  lemma EmittedCardAfterText(id: string, b: Buffers, t: Timed)
    requires t.0.ToolStart? || t.0.ToolEnd?
    ensures Flat(Emitted(id, b.text, b.thought, b.started, t.0, t.1), FrameTextItems)
            == Glyphs(b.text) + EventTextItems(t.0)
  {
    EmittedShows(id, b, t, FrameTextItems);
    FlushTextItems(id, b.text, b.thought, b.started);
    ToolShows(t.0.ToolEnd?, t.0.tool, FrameTextItems);
  }

  /** The same for reasoning and tool cards. */
  lemma {:induction false} ThoughtsAndToolsInOrder(id: string, run: seq<Timed>)
    ensures Flat(Run(id, run).frames, FrameThoughtItems) + Glyphs(Run(id, run).thought)
            == Flat(Events(run), EventThoughtItems)
  {
    if run != [] {
      var b, t := Run(id, run[..|run| - 1]), run[|run| - 1];
      ThoughtsAndToolsInOrder(id, run[..|run| - 1]);
      StepReads(id, run, FrameThoughtItems, EventThoughtItems);
      EmittedThoughtItems(id, b, t);
      Carry(Flat(b.frames, FrameThoughtItems), Glyphs(b.thought), Flat(Events(run[..|run| - 1]), EventThoughtItems),
            Flat(Emitted(id, b.text, b.thought, b.started, t.0, t.1), FrameThoughtItems),
            Glyphs(ThoughtAfter(b.thought, t.0, t.1)), EventThoughtItems(t.0));
    }
  }

  lemma FlushThoughtItems(id: string, text: string, thought: string, started: bool)
    ensures Flat(ReasoningFlush(thought), FrameThoughtItems) == Glyphs(thought)
    ensures Flat(TextFlush(id, text, started), FrameThoughtItems) == []
    ensures FrameThoughtItems(ArtifactFrame(id, [TextPart(text)], started, false)) == []
  {
  }

  lemma EmittedThoughtItems(id: string, b: Buffers, t: Timed)
    ensures Flat(Emitted(id, b.text, b.thought, b.started, t.0, t.1), FrameThoughtItems)
            + Glyphs(ThoughtAfter(b.thought, t.0, t.1))
            == Glyphs(b.thought) + EventThoughtItems(t.0)
  {
    if t.0.ToolStart? || t.0.ToolEnd? {
      EmittedCardAfterThought(id, b, t);
    } else {
      EmittedShows(id, b, t, FrameThoughtItems);
      FlushThoughtItems(id, b.text, b.thought, b.started);
      if t.0.Reasoning? { GlyphsJoin(b.thought, t.0.thought); }
      if t.0.Text? { FlushThoughtItems(id, b.text + t.0.text, b.thought, b.started); }
    }
  }

  lemma EmittedCardAfterThought(id: string, b: Buffers, t: Timed)
    requires t.0.ToolStart? || t.0.ToolEnd?
    ensures Flat(Emitted(id, b.text, b.thought, b.started, t.0, t.1), FrameThoughtItems)
            == Glyphs(b.thought) + EventThoughtItems(t.0)
  {
    EmittedShows(id, b, t, FrameThoughtItems);
    FlushThoughtItems(id, b.text, b.thought, b.started);
    ToolShows(t.0.ToolEnd?, t.0.tool, FrameThoughtItems);
  }

  // ---- Reasoning leads later text --------------------------------------------------------------------

  lemma {:induction false} ReasonBeforeIsEarlier(es: seq<Event>, n: nat)
    ensures ReasonBefore(es, n) <= ReasonOf(es)
  {
    if es != [] && n != 0 {
      var before := es[..|es| - 1];
      FlatJoin(before, [es[|es| - 1]], EventThought);
      assert es == before + [es[|es| - 1]];
      if n <= |TextOf(before)| { ReasonBeforeIsEarlier(before, n); }
    }
  }

  lemma ReasonBeforeIsSettled(es: seq<Event>, e: Event, n: nat)
    requires n <= |TextOf(es)|
    ensures ReasonBefore(es + [e], n) == ReasonBefore(es, n)
  {
  }

  lemma PrefixIsShorter<A, T>(xs: seq<A>, p: nat, shows: A -> seq<T>)
    requires p <= |xs|
    ensures |Flat(xs[..p], shows)| <= |Flat(xs, shows)|
  {
    FlatJoin(xs[..p], xs[p..], shows);
    assert xs == xs[..p] + xs[p..];
  }

  /** New frames keep the lead if no chunk is among them, or all reasoning has gone out first. */
  lemma FramesKeepLead(es: seq<Event>, fs: seq<Frame>, more: seq<Frame>)
    requires ReasonLeads(es, fs)
    requires forall p :: 0 <= p < |more| && more[p].ArtifactFrame? && !more[p].lastChunk ==>
               ThoughtText(fs + more[..p]) == ReasonOf(es)
    ensures ReasonLeads(es, fs + more)
  {
    var gs := fs + more;
    forall p | 0 <= p < |gs| ensures LeadAt(es, gs, p) {
      if p < |fs| {
        assert LeadAt(es, fs, p);
        assert gs[..p + 1] == fs[..p + 1] && gs[..p] == fs[..p];
      } else {
        assert gs[..p] == fs + more[..p - |fs|];
        ReasonBeforeIsEarlier(es, |ChunkText(gs[..p + 1])|);
      }
    }
  }

  lemma EventKeepsLead(es: seq<Event>, e: Event, fs: seq<Frame>)
    requires ReasonLeads(es, fs) && |ChunkText(fs)| <= |TextOf(es)|
    ensures ReasonLeads(es + [e], fs)
  {
    forall p | 0 <= p < |fs| ensures LeadAt(es + [e], fs, p) {
      assert LeadAt(es, fs, p);
      PrefixIsShorter(fs, p + 1, FrameText);
      ReasonBeforeIsSettled(es, e, |ChunkText(fs[..p + 1])|);
    }
  }

  /** Every chunk, in every run, comes after all reasoning that precedes any of its text. */
  lemma {:induction false} ReasoningLeadsText(id: string, run: seq<Timed>)
    ensures ReasonLeads(Events(run), Run(id, run).frames)
  {
    if run != [] {
      var b, t := Run(id, run[..|run| - 1]), run[|run| - 1];
      var es := Events(run[..|run| - 1]);
      ReasoningLeadsText(id, run[..|run| - 1]);
      NoTextIsLost(id, run[..|run| - 1]);
      EventsSnoc(run);
      EventKeepsLead(es, t.0, b.frames);
      ChunksFollowReasoning(id, run);
      FramesKeepLead(Events(run), b.frames, Emitted(id, b.text, b.thought, b.started, t.0, t.1));
    }
  }

  /** When an event sends a chunk, all reasoning so far has been sent. */
  lemma ChunksFollowReasoning(id: string, run: seq<Timed>)
    requires run != []
    ensures var b, t := Run(id, run[..|run| - 1]), run[|run| - 1];
            var more := Emitted(id, b.text, b.thought, b.started, t.0, t.1);
            forall p :: 0 <= p < |more| && more[p].ArtifactFrame? && !more[p].lastChunk ==>
              ThoughtText(b.frames + more[..p]) == ReasonOf(Events(run))
  {
    var b, t := Run(id, run[..|run| - 1]), run[|run| - 1];
    var more := Emitted(id, b.text, b.thought, b.started, t.0, t.1);
    var flushed := ReasoningFlush(b.thought);
    assert ThoughtText(b.frames + flushed) == ReasonOf(Events(run[..|run| - 1])) by {
      NoThoughtIsLost(id, run[..|run| - 1]);
      FlatJoin(b.frames, flushed, FrameThought);
      FlushShows(id, b.text, b.thought, b.started, FrameThought);
    }
    assert ReasonOf(Events(run)) == ReasonOf(Events(run[..|run| - 1])) + EventThought(t.0) by {
      StepReads(id, run, FrameThought, EventThought);
    }
    forall p | 0 <= p < |more| && more[p].ArtifactFrame? && !more[p].lastChunk
      ensures ThoughtText(b.frames + more[..p]) == ReasonOf(Events(run))
    {
      ChunkFollowsFlush(id, b, t, p);
    }
  }

  /** The chunk of an event comes right after its reasoning flush. */
  lemma ChunkFollowsFlush(id: string, b: Buffers, t: Timed, p: nat)
    requires var more := Emitted(id, b.text, b.thought, b.started, t.0, t.1);
             p < |more| && more[p].ArtifactFrame?
    ensures Emitted(id, b.text, b.thought, b.started, t.0, t.1)[..p] == ReasoningFlush(b.thought)
    ensures !t.0.Reasoning?
  {
  }

  // ---- Chunks build one artifact --------------------------------------------------------------------------

  predicate HasChunk(fs: seq<Frame>) {
    exists q :: 0 <= q < |fs| && fs[q].ArtifactFrame?
  }

  /** Only streamed frames; the first chunk creates the answer artifact, every later one appends. */
  ghost predicate ChunksAppend(id: string, fs: seq<Frame>) {
    && (forall p :: 0 <= p < |fs| ==> Streamed(fs[p]))
    && (forall p :: 0 <= p < |fs| && fs[p].ArtifactFrame? ==>
          fs[p].id == id && (fs[p].append <==> HasChunk(fs[..p])))
  }

  lemma MoreFramesAppend(id: string, fs: seq<Frame>, more: seq<Frame>)
    requires ChunksAppend(id, fs)
    requires forall p :: 0 <= p < |more| ==> Streamed(more[p])
    requires forall p :: 0 <= p < |more| && more[p].ArtifactFrame? ==>
               more[p].id == id && !HasChunk(more[..p]) && (more[p].append <==> HasChunk(fs))
    ensures ChunksAppend(id, fs + more)
    ensures HasChunk(fs + more) <==> HasChunk(fs) || HasChunk(more)
  {
    var gs := fs + more;
    HasChunkJoin(fs, more);
    forall p | 0 <= p < |gs| && gs[p].ArtifactFrame?
      ensures gs[p].id == id && (gs[p].append <==> HasChunk(gs[..p]))
    {
      if p < |fs| {
        assert gs[..p] == fs[..p];
      } else {
        assert gs[..p] == fs + more[..p - |fs|];
        HasChunkJoin(fs, more[..p - |fs|]);
      }
    }
  }

  lemma HasChunkJoin(fs: seq<Frame>, more: seq<Frame>)
    ensures HasChunk(fs + more) <==> HasChunk(fs) || HasChunk(more)
  {
    var gs := fs + more;
    if q :| 0 <= q < |fs| && fs[q].ArtifactFrame? { assert gs[q].ArtifactFrame?; }
    if q :| 0 <= q < |more| && more[q].ArtifactFrame? { assert gs[|fs| + q].ArtifactFrame?; }
  }

  /** The answer artifact is created by the first chunk and only appended to after it. */
  lemma {:induction false} ChunksBuildOneArtifact(id: string, run: seq<Timed>)
    ensures ChunksAppend(id, Run(id, run).frames)
    ensures Run(id, run).started <==> HasChunk(Run(id, run).frames)
  {
    if run != [] {
      var b, t := Run(id, run[..|run| - 1]), run[|run| - 1];
      var more := Emitted(id, b.text, b.thought, b.started, t.0, t.1);
      ChunksBuildOneArtifact(id, run[..|run| - 1]);
      OneChunkPerEvent(id, b, t);
      MoreFramesAppend(id, b.frames, more);
    }
  }

  lemma OneChunkPerEvent(id: string, b: Buffers, t: Timed)
    ensures var more := Emitted(id, b.text, b.thought, b.started, t.0, t.1);
            && (forall p :: 0 <= p < |more| ==> Streamed(more[p]))
            && (forall p :: 0 <= p < |more| && more[p].ArtifactFrame? ==>
                  more[p].id == id && !HasChunk(more[..p]) && more[p].append == b.started)
            && (b.started || HasChunk(more) <==> Step(id, b, t).started)
  {
    var more := Emitted(id, b.text, b.thought, b.started, t.0, t.1);
    var q := |ReasoningFlush(b.thought)|;
    if t.0.Text? && ShouldFlush(b.text + t.0.text, t.1) { assert more[q].ArtifactFrame?; }
    if (t.0.ToolStart? || t.0.ToolEnd?) && b.text != "" { assert more[q].ArtifactFrame?; }
  }

  // ---- Buffers stay small ------------------------------------------------------------------------------------

  /** Nothing stays buffered once it has reached the flush size. */
  lemma {:induction false} BuffersStaySmall(id: string, run: seq<Timed>)
    ensures |Run(id, run).text| < 24 && |Run(id, run).thought| < 24
  {
    if run != [] {
      BuffersStaySmall(id, run[..|run| - 1]);
    }
  }

  /** Text is batched: it goes out, with all that was buffered, once 24 characters are there, or the
      buffer is old enough and not empty, or a tool card is next; and at no other event. */
  lemma WhenTextGoes(id: string, b: Buffers, t: Timed)
    ensures (exists f :: f in Emitted(id, b.text, b.thought, b.started, t.0, t.1) && f.ArtifactFrame?) <==>
            match t.0
            case Text(more) => |b.text + more| >= 24 || (b.text + more != "" && t.1)
            case ToolStart(_) => b.text != ""
            case ToolEnd(_) => b.text != ""
            case _ => false
  {
    var more, q := Emitted(id, b.text, b.thought, b.started, t.0, t.1), |ReasoningFlush(b.thought)|;
    if t.0.Text? && ShouldFlush(b.text + t.0.text, t.1) { assert more[q].ArtifactFrame? && more[q] in more; }
    if (t.0.ToolStart? || t.0.ToolEnd?) && b.text != "" { assert more[q].ArtifactFrame? && more[q] in more; }
  }

  /** Reasoning is batched the same way, but goes out ahead of whatever else happens. */
  lemma WhenReasoningGoes(b: Buffers, t: Timed)
    ensures SendsReasoning(b, t) <==>
            if t.0.Reasoning?
            then t.0.thought != "" && (|b.thought + t.0.thought| >= 24 || t.1)
            else b.thought != ""
  {
  }

  // ---- Components ----------------------------------------------------------------------------------

  function EventWidgets(e: Event): seq<string> {
    if e.Component? && e.component.Some? then [e.component.value] else []
  }

  function FrameWidgets(f: Frame): seq<string> { if f.ComponentFrame? then [f.component] else [] }

  /** Each component is shown once, in order. */
  lemma {:induction false} ComponentsInOrder(id: string, run: seq<Timed>)
    ensures Flat(Run(id, run).frames, FrameWidgets) == Flat(Events(run), EventWidgets)
  {
    if run != [] {
      var b, t := Run(id, run[..|run| - 1]), run[|run| - 1];
      ComponentsInOrder(id, run[..|run| - 1]);
      StepReads(id, run, FrameWidgets, EventWidgets);
      EmittedWidgets(id, b, t);
    }
  }

  lemma EmittedWidgets(id: string, b: Buffers, t: Timed)
    ensures Flat(Emitted(id, b.text, b.thought, b.started, t.0, t.1), FrameWidgets) == EventWidgets(t.0)
  {
    EmittedShows(id, b, t, FrameWidgets);
    FlushShows(id, b.text, b.thought, b.started, FrameWidgets);
    if t.0.ToolStart? || t.0.ToolEnd? { ToolShows(t.0.ToolEnd?, t.0.tool, FrameWidgets); }
  }

  /** An event sends reasoning exactly when it flushes that buffer: reasoning of its own that makes
      it due, or anything else with some buffered. */
  predicate SendsReasoning(b: Buffers, t: Timed) {
    match t.0
    case Reasoning(more) => more != "" && ShouldFlush(b.thought + more, t.1)
    case _ => b.thought != ""
  }

  lemma ReasoningIsSentFirst(id: string, b: Buffers, t: Timed)
    ensures var more := Emitted(id, b.text, b.thought, b.started, t.0, t.1);
            && (SendsReasoning(b, t) <==> more != [] && more[0].ReasoningFrame?)
            && (forall i :: 0 < i < |more| ==> !more[i].ReasoningFrame?)
  {
    match t.0
    case Reasoning(more) =>
    case Text(more) =>
      FlushThenRest(b.thought, TextFlush(id, b.text + more, b.started));
      assert ReasoningFlush(b.thought) + [] == ReasoningFlush(b.thought);
    case ToolStart(tool) => FlushThenCard(b.thought, TextFlush(id, b.text, b.started), ToolFrames(false, tool));
    case ToolEnd(tool) => FlushThenCard(b.thought, TextFlush(id, b.text, b.started), ToolFrames(true, tool));
    case Component(Some(c)) => FlushThenRest(b.thought, [ComponentFrame(c)]);
    case _ =>
  }

  predicate NoReasoning(fs: seq<Frame>) {
    forall i :: 0 <= i < |fs| ==> !fs[i].ReasoningFrame?
  }

  lemma FlushThenRest(thought: string, rest: seq<Frame>)
    requires NoReasoning(rest)
    ensures var more := ReasoningFlush(thought) + rest;
            && (thought != "" <==> more != [] && more[0].ReasoningFrame?)
            && (forall i :: 0 < i < |more| ==> !more[i].ReasoningFrame?)
  {
  }

  lemma FlushThenCard(thought: string, chunk: seq<Frame>, card: seq<Frame>)
    requires NoReasoning(chunk) && NoReasoning(card)
    ensures var more := ReasoningFlush(thought) + chunk + card;
            && (thought != "" <==> more != [] && more[0].ReasoningFrame?)
            && (forall i :: 0 < i < |more| ==> !more[i].ReasoningFrame?)
  {
    FlushThenRest(thought, chunk + card);
    assert ReasoningFlush(thought) + chunk + card == ReasoningFlush(thought) + (chunk + card);
  }

  /** The lead runs one way only: at the frame by which an event sends reasoning, the text sent falls
      short of the text before that event by the text buffer. So reasoning overtakes text exactly
      where some is buffered. */
  lemma ReasoningOvertakesText(id: string, run: seq<Timed>)
    requires run != []
    ensures var before := run[..|run| - 1];
            var b, t := Run(id, before), run[|run| - 1];
            var more := Emitted(id, b.text, b.thought, b.started, t.0, t.1);
            && (SendsReasoning(b, t) <==> exists i :: 0 <= i < |more| && more[i].ReasoningFrame?)
            && (SendsReasoning(b, t) ==>
                  && ChunkText(b.frames + more[..1]) + b.text == TextOf(Events(before))
                  && (ChunkText(b.frames + more[..1]) == TextOf(Events(before)) <==> b.text == ""))
  {
    var before := run[..|run| - 1];
    var b, t := Run(id, before), run[|run| - 1];
    var more := Emitted(id, b.text, b.thought, b.started, t.0, t.1);
    ReasoningIsSentFirst(id, b, t);
    NoTextIsLost(id, before);
    if SendsReasoning(b, t) {
      ReasoningShowsNoText(b.frames, more[0]);
      assert more[..1] == [more[0]];
    }
  }

  lemma ReasoningShowsNoText(frames: seq<Frame>, f: Frame)
    requires f.ReasoningFrame?
    ensures ChunkText(frames + [f]) == ChunkText(frames)
  {
    FlatOne(f, FrameText);
    FlatJoin(frames, [f], FrameText);
  }

  /** It happens: text that came first is sent last. */
  lemma OvertakingRun()
    ensures Run("a", [(Text("x"), false), (Reasoning("y"), true), (ToolStart(Plain("z")), false)]).frames
            == [ReasoningFrame("y"), ArtifactFrame("a", [TextPart("x")], false, false), ToolFrame(false, Plain("z"))]
  {
    var run := [(Text("x"), false), (Reasoning("y"), true), (ToolStart(Plain("z")), false)];
    assert run[..2] == [(Text("x"), false), (Reasoning("y"), true)];
    assert run[..2][..1] == [(Text("x"), false)] && run[..2][..1][..0] == [];
    assert "" + "x" == "x" && "" + "y" == "y" && [] + [ReasoningFrame("y")] == [ReasoningFrame("y")];
    assert Run("a", run[..2][..1]) == Buffers([], "x", "", false);
    assert Run("a", run[..2]) == Step("a", Run("a", run[..2][..1]), run[1]);
    assert Run("a", run[..2]) == Buffers([ReasoningFrame("y")], "x", "", false);
  }
}
