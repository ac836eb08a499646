/** One streamed turn: the event loop that batches text and reasoning into frames.

    The sends of the turn may fail or be cancelled, each according to the next entry of
    `signals`; elapsed time shows only as the flag beside each event. */
module TurnExecutor {
  import opened Sequences
  import opened Wrappers
  import opened TurnLog
  import opened TurnRun
  import opened TurnCounters

  datatype Exc = Crashed(message: string) | Cancelled | Stalled(message: string)

  datatype Signal = Sent | Raises(exc: Exc)

  datatype Flow = Go | Returned | Threw(exc: Exc)

  datatype State = Completed | Failed | Canceled | Parked

  datatype Outcome = Outcome(state: State, text: string, counts: Counters, error: string)

  /** How the producer's stream ends once its events are used up. */
  datatype Ending = EndOfStream | Breaks(exc: Exc)

  // ---- How a turn closes ------------------------------------------------------------------

  predicate Terminal(e: Event) {
    e.InputRequired? || e.Done? || e.Error?
  }

  function EventDelta(e: Event): seq<string> {
    if e.Delta? && e.delta.Some? then [e.delta.value] else []
  }

  /** How many events come before the first terminal one. */
  function Lead(events: seq<Timed>): (n: nat)
    ensures n <= |events|
    ensures forall i :: 0 <= i < n ==> !Terminal(events[i].0)
    ensures n < |events| ==> Terminal(events[n].0)
  {
    if events == [] || Terminal(events[0].0) then 0 else 1 + Lead(events[1..])
  }

  /** The events a turn gets to handle: those before the first terminal one. */
  function Handled(events: seq<Timed>): seq<Timed> { events[..Lead(events)] }

  /** What stops the turn: its first terminal event, or the way its stream ends. */
  datatype Stop = AtEvent(e: Event) | AtEnd(ending: Ending)

  function StopOf(events: seq<Timed>, ending: Ending): Stop {
    if Lead(events) < |events| then AtEvent(events[Lead(events)].0) else AtEnd(ending)
  }

  /** The answer, the context readout if a prompt was measured, and structured output beside an answer. */
  function ClosingParts(answer: string, c: Counters, structured: Option<string>): seq<Part> {
    (if answer == "" then [] else [TextPart(answer)])
    + ((if c.contextTokens == 0 then [] else
          [ContextPart(c.contextTokens, if c.lastInput > 0 then Some(c.lastInput + c.lastOutput) else None)])
       + (if answer == "" || structured.None? then [] else [DataPart(structured.value)]))
  }

  /** The one closing artifact, which replaces whatever was streamed; none when it would be empty. */
  function ClosingFrames(id: string, answer: string, c: Counters, deltas: seq<string>,
                         structured: Option<string>): seq<Frame> {
    var parts := ClosingParts(answer, c, structured);
    var metadata := deltas != [] || (c.spend.calls > 0 && (c.spend.input != 0 || c.spend.output != 0));
    if parts == [] && !metadata then [] else [ArtifactFrame(id, parts, false, true)]
  }

  ghost predicate PromptMeasured(es: seq<Event>) {
    exists i :: 0 <= i < |es| && LeadReport(es[i]) && es[i].usage.value.input > 0
  }

  /** What the last lead call took and gave, if it took anything. */
  ghost predicate Projects(es: seq<Event>, projected: Option<int>) {
    exists input, output :: IsLastLead(es, input, output)
      && projected == if input > 0 then Some(input + output) else None
  }

  function Readout(c: Counters): Part {
    ContextPart(c.contextTokens, if c.lastInput > 0 then Some(c.lastInput + c.lastOutput) else None)
  }

  lemma ClosingPartsAre(answer: string, c: Counters, structured: Option<string>, p: Part)
    ensures p in ClosingParts(answer, c, structured) <==>
            match p
            case TextPart(text) => text == answer && answer != ""
            case ContextPart(_, _) => p == Readout(c) && c.contextTokens != 0
            case DataPart(data) => structured == Some(data) && answer != ""
  {
  }

  /** The closing artifact's parts, read off the events: the answer; the largest lead prompt, with
      what the last lead call took and gave; and structured output beside an answer. */
  lemma ClosingReadsTheEvents(es: seq<Event>, answer: string, structured: Option<string>, p: Part)
    ensures p in ClosingParts(answer, CountAll(es), structured) ==>
              && (p.TextPart? ==> p.text == answer && answer != "")
              && (p.DataPart? ==> structured == Some(p.data) && answer != "")
              && (p.ContextPart? ==> p.tokens > 0 && IsLeadPeak(es, p.tokens) && Projects(es, p.projected))
    ensures answer != "" ==> TextPart(answer) in ClosingParts(answer, CountAll(es), structured)
    ensures answer != "" && structured.Some? ==>
              DataPart(structured.value) in ClosingParts(answer, CountAll(es), structured)
    ensures (exists q :: q in ClosingParts(answer, CountAll(es), structured) && q.ContextPart?) <==> PromptMeasured(es)
  {
    ClosingPartsAre(answer, CountAll(es), structured, p);
    ClosingPartsAre(answer, CountAll(es), structured, TextPart(answer));
    if structured.Some? { ClosingPartsAre(answer, CountAll(es), structured, DataPart(structured.value)); }
    ProjectionIsTheLastLead(es);
    ContextIsThePeak(es);
    ReadoutIsThere(es, answer, structured);
  }

  lemma ReadoutIsThere(es: seq<Event>, answer: string, structured: Option<string>)
    ensures (exists q :: q in ClosingParts(answer, CountAll(es), structured) && q.ContextPart?) <==> PromptMeasured(es)
  {
    var c := CountAll(es);
    ClosingPartsAre(answer, c, structured, Readout(c));
    forall q ensures q in ClosingParts(answer, c, structured) && q.ContextPart? ==> c.contextTokens != 0 {
      ClosingPartsAre(answer, c, structured, q);
    }
    PromptsShow(es);
  }

  lemma PromptsShow(es: seq<Event>)
    ensures CountAll(es).contextTokens != 0 <==> PromptMeasured(es)
  {
    ContextIsThePeak(es);
  }

  /** A turn closes without an artifact only if it has no answer, measured no prompt, was given no
      state delta and spent no tokens. */
  lemma WhenNothingCloses(id: string, es: seq<Event>, answer: string, structured: Option<string>)
    ensures ClosingFrames(id, answer, CountAll(es), Flat(es, EventDelta), structured) == [] <==>
            && answer == "" && !PromptMeasured(es)
            && (forall i :: 0 <= i < |es| && es[i].Delta? ==> es[i].delta.None?)
            && (Spend(es).calls == 0 || (Spend(es).input == 0 && Spend(es).output == 0))
  {
    PromptsShow(es);
    SpendIsTheSum(es);
    NoDeltas(es);
  }

  lemma {:induction false} NoDeltas(es: seq<Event>)
    ensures Flat(es, EventDelta) == [] <==> forall i :: 0 <= i < |es| && es[i].Delta? ==> es[i].delta.None?
  {
    if es != [] {
      var n := |es| - 1;
      NoDeltas(es[..n]);
      assert forall i :: 0 <= i < n ==> es[..n][i] == es[i];
    }
  }

  function Flushed(id: string, run: seq<Timed>): seq<Frame> {
    var b := Run(id, run);
    b.frames + (ReasoningFlush(b.thought) + TextFlush(id, b.text, b.started))
  }

  /** The answer of a completed turn: the producer's final text, or else all that it streamed. */
  function AnswerOf(run: seq<Timed>, stop: Stop): string {
    if stop.AtEvent? && stop.e.Done? && stop.e.answer != "" then stop.e.answer else TextOf(Events(run))
  }

  predicate Completes(stop: Stop) {
    match stop
    case AtEvent(e) => e.Done?
    case AtEnd(ending) => ending.EndOfStream?
  }

  /** The whole frame log of a turn whose sends all succeed. */
  function AllFrames(id: string, run: seq<Timed>, stop: Stop, structured: Option<string>): seq<Frame> {
    if Completes(stop) then
      Flushed(id, run)
      + ClosingFrames(id, AnswerOf(run, stop), CountAll(Events(run)), Flat(Events(run), EventDelta), structured)
      + [CompletedFrame]
    else match stop
      case AtEvent(InputRequired(prompt)) => Flushed(id, run) + [InputRequiredFrame(prompt)]
      case AtEvent(Error(message)) =>
        Run(id, run).frames + ReasoningFlush(Run(id, run).thought) + [FailedFrame(message)]
      case AtEnd(Breaks(Stalled(message))) => Flushed(id, run) + [FailedFrame(message)]
      case AtEnd(Breaks(Crashed(message))) => Run(id, run).frames + [FailedFrame(message)]
      case _ => Run(id, run).frames
  }

  /** The one outcome of a turn whose sends all succeed. */
  function OutcomeOf(run: seq<Timed>, stop: Stop): Outcome {
    var c, text := CountAll(Events(run)), TextOf(Events(run));
    if Completes(stop) then Outcome(Completed, AnswerOf(run, stop), c, "")
    else match stop
      case AtEvent(Error(message)) => Outcome(Failed, text, c, message)
      case AtEnd(Breaks(Stalled(message))) => Outcome(Failed, text, c, message)
      case AtEnd(Breaks(Crashed(message))) => Outcome(Failed, text, c, message)
      case AtEnd(Breaks(Cancelled)) => Outcome(Canceled, text, c, "")
      case _ => Outcome(Parked, text, c, "")
  }

  /** The turn stops at its first final answer, error or pause for input, having handled what came
      before it; if there is none, it handles everything and stops as the stream ends. */
  lemma StopIsTheFirstClosingEvent(events: seq<Timed>, ending: Ending, i: nat)
    requires i <= |events|
    requires forall k :: 0 <= k < i ==> !events[k].0.Done? && !events[k].0.Error? && !events[k].0.InputRequired?
    requires i < |events| ==> events[i].0.Done? || events[i].0.Error? || events[i].0.InputRequired?
    ensures StopOf(events, ending) == if i < |events| then AtEvent(events[i].0) else AtEnd(ending)
    ensures Handled(events) == events[..i]
  {
    assert Lead(events) == i;
  }

  predicate EndsWith(frames: seq<Frame>, last: Frame) { frames != [] && frames[|frames| - 1] == last }

  /** What each way to stop comes to: its state, its text, its error and its last frame. */
  lemma HowATurnCloses(id: string, run: seq<Timed>, stop: Stop, structured: Option<string>)
    requires stop.AtEvent? ==> stop.e.Done? || stop.e.Error? || stop.e.InputRequired?
    ensures var o, frames, said := OutcomeOf(run, stop), AllFrames(id, run, stop, structured), TextOf(Events(run));
            && o.counts == CountAll(Events(run))
            && match stop
               case AtEvent(Done(answer)) =>
                 o.state == Completed && o.text == (if answer != "" then answer else said) && o.error == ""
                 && EndsWith(frames, CompletedFrame)
               case AtEvent(Error(message)) =>
                 o.state == Failed && o.text == said && o.error == message && EndsWith(frames, FailedFrame(message))
               case AtEvent(InputRequired(prompt)) =>
                 o.state == Parked && o.text == said && o.error == "" && EndsWith(frames, InputRequiredFrame(prompt))
               case AtEnd(EndOfStream) =>
                 o.state == Completed && o.text == said && o.error == "" && EndsWith(frames, CompletedFrame)
               case AtEnd(Breaks(Crashed(message))) =>
                 o.state == Failed && o.text == said && o.error == message && EndsWith(frames, FailedFrame(message))
               case AtEnd(Breaks(Stalled(message))) =>
                 o.state == Failed && o.text == said && o.error == message && EndsWith(frames, FailedFrame(message))
               case AtEnd(Breaks(Cancelled)) =>
                 o.state == Canceled && o.text == said && o.error == "" && forall f :: f in frames ==> Streamed(f)
  {
    ChunksBuildOneArtifact(id, run);
  }

  lemma LeadGoesOn(events: seq<Timed>, i: nat, n: nat)
    requires i < |events| && i <= n && n == Lead(events) && !Terminal(events[i].0)
    ensures i < n && events[..i] + [(events[i].0, events[i].1)] == events[..i + 1]
  {
  }

  lemma {:induction false} TextOfPrefix(es: seq<Event>, i: nat)
    requires i <= |es|
    ensures TextOf(es[..i]) <= TextOf(es)
  {
    if i == |es| {
      assert es[..i] == es;
    } else {
      assert es[..|es| - 1][..i] == es[..i];
      TextOfPrefix(es[..|es| - 1], i);
    }
  }

  lemma TextUpTo(es: seq<Event>, i: nat)
    requires i < |es|
    ensures TextOf(es[..i]) + EventText(es[i]) <= TextOf(es)
  {
    assert es[..i + 1][..i] == es[..i];
    TextOfPrefix(es, i + 1);
  }

  /** The text up to an event that the turn handles leads the text it handles. */
  lemma HandledTextGrows(events: seq<Timed>, i: nat)
    requires i < Lead(events)
    ensures TextOf(Events(events[..i])) + EventText(events[i].0) <= TextOf(Events(Handled(events)))
  {
    var es := Events(Handled(events));
    assert Events(events[..i]) == es[..i] && es[i] == events[i].0;
    TextUpTo(es, i);
  }

  lemma LeadIsOver(events: seq<Timed>, i: nat, n: nat)
    requires i <= n && n == Lead(events) && (i == |events| || Terminal(events[i].0))
    ensures i == n
  {
  }

  /** Buffers, counters, text and deltas are those of the fold over a run. */
  ghost predicate Agrees(id: string, b: Buffers, c: Counters, text: string, ds: seq<string>, run: seq<Timed>) {
    && b == Run(id, run)
    && c == CountAll(Events(run))
    && text == TextOf(Events(run))
    && ds == Flat(Events(run), EventDelta)
  }

  /** A completed, failed or parked turn has closed with the frame that says so, and a failed one
      with its error. */
  predicate ShownAs(o: Outcome, frames: seq<Frame>) {
    match o.state
    case Completed => EndsWith(frames, CompletedFrame)
    case Failed => EndsWith(frames, FailedFrame(o.error))
    case Parked => frames != [] && frames[|frames| - 1].InputRequiredFrame?
    case Canceled => true
  }

  class Turn {
    const aid: string
    const structured: Option<string>
    var accumulated: string
    var textBuf: string
    var reasoningBuf: string
    var answerStarted: bool
    var deltas: seq<string>
    var spend: Totals
    var contextTokens: nat
    var lastInput: int
    var lastOutput: int
    var toolCalls: nat
    var counted: set<string>
    var models: seq<string>
    var frames: seq<Frame>
    var outcomes: seq<Outcome>
    var signals: seq<Signal>
    ghost var run: seq<Timed>

    function Counts(): Counters
      reads this`spend, this`contextTokens, this`lastInput, this`lastOutput, this`toolCalls, this`counted, this`models
    {
      Counters(spend, contextTokens, lastInput, lastOutput, toolCalls, counted, models)
    }

    ghost function Bufs(): Buffers
      reads this`frames, this`textBuf, this`reasoningBuf, this`answerStarted
    {
      Buffers(frames, textBuf, reasoningBuf, answerStarted)
    }

    /** Frames, buffers and counters are those of the fold over the events handled so far. */
    ghost predicate Valid()
      reads this
    {
      Agrees(aid, Bufs(), Counts(), accumulated, deltas, run) && outcomes == []
    }

    /** The turn took exactly the step of the fold that the event calls for. */
    ghost predicate Advanced(b: Buffers, c: Counters, text: string, ds: seq<string>, e: Event, due: bool)
      reads this
    {
      && Bufs() == Step(aid, b, (e, due))
      && Counts() == Count(c, e)
      && accumulated == text + EventText(e)
      && deltas == ds + EventDelta(e)
    }

    ghost predicate Quiet()
      reads this`signals
    {
      forall s :: s in signals ==> s.Sent?
    }

    /** All text the turn has accumulated is in the chunks sent or still in the buffer. */
    ghost predicate TextKept()
      reads this`frames, this`textBuf, this`accumulated
    {
      ChunkText(frames) + textBuf == accumulated
    }

    lemma ValidKeepsText()
      requires Valid()
      ensures TextKept()
    {
      NoTextIsLost(aid, run);
    }

    constructor (aid: string, structured: Option<string>, signals: seq<Signal>)
      ensures Valid() && run == []
      ensures this.aid == aid && this.structured == structured && this.signals == signals
    {
      this.aid, this.structured, this.signals := aid, structured, signals;
      accumulated, textBuf, reasoningBuf, answerStarted := "", "", "", false;
      deltas, spend, contextTokens, lastInput, lastOutput := [], Totals(0, 0, 0, 0, 0.0, 0), 0, 0, 0;
      toolCalls, counted, models, frames, outcomes, run := 0, {}, [], [], [], [];
    }

    // ---- Sends and flushes ---------------------------------------------------------------------

    method Send(f: Frame) returns (flow: Flow)
      modifies this`frames, this`signals
      ensures flow.Go? || flow.Threw?
      ensures frames == if flow.Go? then old(frames) + [f] else old(frames)
      ensures old(Quiet()) ==> flow.Go? && Quiet()
      ensures old(TextKept()) && FrameText(f) == "" ==> TextKept()
    {
      if signals == [] || signals[0].Sent? {
        signals := if signals == [] then [] else signals[1..];
        OneMoreFrame(frames, f);
        frames := frames + [f];
        return Go;
      }
      flow := Threw(signals[0].exc);
      signals := signals[1..];
    }

    /** The buffer is cleared before the send, so a failed send loses it. */
    method FlushReasoning() returns (flow: Flow)
      modifies this`reasoningBuf, this`frames, this`signals
      ensures flow.Go? || flow.Threw?
      ensures frames == if flow.Go? then old(frames) + ReasoningFlush(old(reasoningBuf)) else old(frames)
      ensures reasoningBuf == ""
      ensures old(Quiet()) ==> flow.Go? && Quiet()
      ensures old(TextKept()) ==> TextKept()
    {
      if reasoningBuf == "" {
        return Go;
      }
      var payload := reasoningBuf;
      reasoningBuf := "";
      flow := Send(ReasoningFrame(payload));
    }

    /** The buffer is cleared after the send, so a failed send keeps it. */
    method FlushText() returns (flow: Flow)
      modifies this`textBuf, this`answerStarted, this`frames, this`signals
      ensures flow.Go? || flow.Threw?
      ensures frames == if flow.Go? then old(frames) + TextFlush(aid, old(textBuf), old(answerStarted)) else old(frames)
      ensures textBuf == if flow.Go? then "" else old(textBuf)
      ensures answerStarted == (old(answerStarted) || (flow.Go? && old(textBuf) != ""))
      ensures old(Quiet()) ==> flow.Go? && Quiet()
      ensures old(TextKept()) ==> TextKept()
    {
      if textBuf == "" {
        return Go;
      }
      ChunkShows(aid, textBuf, answerStarted);
      OneMoreFrame(frames, ArtifactFrame(aid, [TextPart(textBuf)], answerStarted, false));
      flow := Send(ArtifactFrame(aid, [TextPart(textBuf)], answerStarted, false));
      if flow.Go? {
        answerStarted := true;
        textBuf := "";
      }
    }

    /** Reasoning first, then text. */
    method FlushBoth() returns (flow: Flow)
      modifies this`reasoningBuf, this`textBuf, this`answerStarted, this`frames, this`signals
      ensures flow.Go? || flow.Threw?
      ensures flow.Go? ==>
                frames == old(frames)
                          + (ReasoningFlush(old(reasoningBuf)) + TextFlush(aid, old(textBuf), old(answerStarted)))
      ensures flow.Go? ==> Bufs() == BothFlushed(aid, old(Bufs()))
      ensures old(Quiet()) ==> flow.Go? && Quiet()
      ensures old(TextKept()) ==> TextKept()
    {
      flow := FlushReasoning();
      if flow.Go? {
        flow := FlushText();
      }
    }

    // ---- The event loop --------------------------------------------------------------------------

    method OnReasoning(more: string, due: bool) returns (flow: Flow)
      modifies this`reasoningBuf, this`frames, this`signals
      ensures flow.Go? || flow.Threw?
      ensures flow.Go? ==> Advanced(old(Bufs()), old(Counts()), old(accumulated), old(deltas), Reasoning(more), due)
      ensures old(Quiet()) ==> flow.Go? && Quiet()
      ensures old(TextKept()) ==> TextKept()
    {
      flow := Go;
      if more != "" {
        reasoningBuf := reasoningBuf + more;
        if ShouldFlush(reasoningBuf, due) {
          flow := FlushReasoning();
        }
      }
    }

    method BufferText(more: string)
      modifies this`accumulated, this`textBuf
      ensures accumulated == old(accumulated) + more && textBuf == old(textBuf) + more
      ensures old(TextKept()) ==> TextKept()
    {
      Regroup(ChunkText(frames), textBuf, more);
      accumulated := accumulated + more;
      textBuf := textBuf + more;
    }

    /** Accumulates and buffers text, and flushes the buffer if that makes it due. */
    method AddText(more: string, due: bool) returns (flow: Flow)
      modifies this`accumulated, this`textBuf, this`answerStarted, this`frames, this`signals
      ensures flow.Go? || flow.Threw?
      ensures accumulated == old(accumulated) + more
      ensures flow.Go? ==> Bufs() == WithText(aid, old(Bufs()), more, due)
      ensures old(Quiet()) ==> flow.Go? && Quiet()
      ensures old(TextKept()) ==> TextKept()
    {
      flow := Go;
      BufferText(more);
      if ShouldFlush(textBuf, due) {
        flow := FlushText();
      }
    }

    method OnText(more: string, due: bool) returns (flow: Flow)
      modifies this`accumulated, this`reasoningBuf, this`textBuf, this`answerStarted, this`frames, this`signals
      ensures flow.Go? || flow.Threw?
      ensures flow.Go? ==> Advanced(old(Bufs()), old(Counts()), old(accumulated), old(deltas), Text(more), due)
      ensures old(Quiet()) ==> flow.Go? && Quiet()
      ensures old(TextKept()) ==> TextKept()
      ensures accumulated == old(accumulated) || accumulated == old(accumulated) + more
    {
      ghost var b := Bufs();
      flow := FlushReasoning();
      if flow.Go? {
        flow := AddText(more, due);
        TextSteps(aid, b, more, due);
      }
    }

    /** A start counts once per call id, and once each time it carries none. */
    method OnStart(tool: ToolPayload)
      modifies this`toolCalls, this`counted
      ensures Counts() == CountStart(old(Counts()), tool)
    {
      var id := if tool.Structured? then tool.id else None;
      if id.None? || id.value !in counted {
        toolCalls := toolCalls + 1;
        if id.Some? {
          counted := counted + {id.value};
        }
      }
    }

    /** A start is counted; then the card goes out. */
    method CountAndSend(end: bool, tool: ToolPayload) returns (flow: Flow)
      modifies this`frames, this`signals, this`toolCalls, this`counted
      ensures flow.Go? || flow.Threw?
      ensures Counts() == if end then old(Counts()) else CountStart(old(Counts()), tool)
      ensures flow.Go? ==> Bufs() == CardSent(old(Bufs()), end, tool)
      ensures old(Quiet()) ==> flow.Go? && Quiet()
      ensures old(TextKept()) ==> TextKept()
    {
      if !end {
        OnStart(tool);
      }
      flow := SendTool(end, tool);
    }

    /** Both buffers go out before the tool card; an empty plain payload shows no card. */
    method OnTool(end: bool, tool: ToolPayload, due: bool) returns (flow: Flow)
      modifies this`reasoningBuf, this`textBuf, this`answerStarted, this`frames, this`signals
      modifies this`toolCalls, this`counted
      ensures flow.Go? || flow.Threw?
      ensures flow.Go? ==> Advanced(old(Bufs()), old(Counts()), old(accumulated), old(deltas),
                                    if end then ToolEnd(tool) else ToolStart(tool), due)
      ensures old(Quiet()) ==> flow.Go? && Quiet()
      ensures old(TextKept()) ==> TextKept()
    {
      ghost var b, c := Bufs(), Counts();
      flow := FlushBoth();
      if flow.Go? {
        flow := CountAndSend(end, tool);
        ToolSteps(aid, b, c, end, tool, due);
      }
    }

    method SendTool(end: bool, tool: ToolPayload) returns (flow: Flow)
      modifies this`frames, this`signals
      ensures flow.Go? || flow.Threw?
      ensures flow.Go? ==> frames == old(frames) + ToolFrames(end, tool)
      ensures old(Quiet()) ==> flow.Go? && Quiet()
      ensures old(TextKept()) ==> TextKept()
    {
      flow := Go;
      if tool.Structured? || tool.text != "" {
        flow := Send(ToolFrame(end, tool));
      }
    }

    method OnUsage(u: Usage)
      modifies this`spend, this`contextTokens, this`lastInput, this`lastOutput, this`models
      ensures Counts() == CountUsage(old(Counts()), u)
    {
      if !u.delegated {
        if u.input > contextTokens {
          contextTokens := u.input;
        }
        lastInput := u.input;
        lastOutput := u.output;
      }
      spend := Totals(spend.input + u.input, spend.output + u.output, spend.cacheRead + u.cacheRead,
                      spend.cacheCreation + u.cacheCreation, spend.cost + u.cost, spend.calls + 1);
      if u.model != "" && u.model !in models {
        models := models + [u.model];
      }
    }

    /** Shows a component, keeps a state delta or counts usage; other events leave no trace. */
    method Note(e: Event) returns (flow: Flow)
      requires !Terminal(e) && !e.Text? && !e.Reasoning? && !e.ToolStart? && !e.ToolEnd?
      modifies this`frames, this`signals, this`deltas
      modifies this`spend, this`contextTokens, this`lastInput, this`lastOutput, this`models
      ensures flow.Go? || flow.Threw?
      ensures flow.Go? ==>
                && frames == old(frames) + ComponentFrames(e)
                && Counts() == Count(old(Counts()), e) && deltas == old(deltas) + EventDelta(e)
      ensures old(Quiet()) ==> flow.Go? && Quiet()
      ensures old(TextKept()) ==> TextKept()
    {
      flow := Go;
      match e
      case Component(Some(c)) => flow := Send(ComponentFrame(c));
      case Delta(Some(d)) => deltas := deltas + [d];
      case UsageReport(Some(u)) => OnUsage(u);
      case _ =>
    }

    /** Events that neither stream text nor tools: a buffered thought still goes out first. */
    method OnOther(e: Event, due: bool) returns (flow: Flow)
      requires !Terminal(e) && !e.Text? && !e.Reasoning? && !e.ToolStart? && !e.ToolEnd?
      modifies this`reasoningBuf, this`frames, this`signals, this`deltas
      modifies this`spend, this`contextTokens, this`lastInput, this`lastOutput, this`models
      ensures flow.Go? || flow.Threw?
      ensures flow.Go? ==> Advanced(old(Bufs()), old(Counts()), old(accumulated), old(deltas), e, due)
      ensures old(Quiet()) ==> flow.Go? && Quiet()
      ensures old(TextKept()) ==> TextKept()
    {
      ghost var b := Bufs();
      flow := FlushReasoning();
      if flow.Go? {
        flow := Note(e);
        OtherSteps(aid, b, e, due);
      }
    }

    /** Handles one non-terminal event, whatever came before it. */
    method Dispatch(e: Event, due: bool) returns (flow: Flow)
      requires !Terminal(e)
      modifies this`accumulated, this`reasoningBuf, this`textBuf, this`answerStarted, this`frames, this`signals
      modifies this`toolCalls, this`counted, this`deltas
      modifies this`spend, this`contextTokens, this`lastInput, this`lastOutput, this`models
      ensures flow.Go? || flow.Threw?
      ensures flow.Go? ==> Advanced(old(Bufs()), old(Counts()), old(accumulated), old(deltas), e, due)
      ensures old(Quiet()) ==> flow.Go? && Quiet()
      ensures old(TextKept()) ==> TextKept()
      ensures accumulated == old(accumulated) || accumulated == old(accumulated) + EventText(e)
    {
      if e.Text? {
        flow := OnText(e.text, due);
      } else if e.ToolStart? || e.ToolEnd? {
        flow := OnTool(e.ToolEnd?, e.tool, due);
      } else if e.Reasoning? {
        flow := OnReasoning(e.thought, due);
      } else {
        flow := OnOther(e, due);
      }
    }

    /** One non-terminal event advances the fold by one step. */
    method HandleEvent(e: Event, due: bool) returns (flow: Flow)
      requires Valid() && !Terminal(e)
      modifies this
      ensures flow.Go? || flow.Threw?
      ensures outcomes == []
      ensures flow.Go? ==> Valid() && run == old(run) + [(e, due)]
      ensures old(Quiet()) ==> flow.Go? && Quiet()
      ensures old(TextKept()) ==> TextKept()
      ensures accumulated == old(accumulated) || accumulated == old(accumulated) + EventText(e)
    {
      AgreesOnwards(aid, Bufs(), Counts(), accumulated, deltas, run, e, due);
      flow := Dispatch(e, due);
      run := run + [(e, due)];
    }

    // ---- Closing the turn ------------------------------------------------------------------------

    /** Records the turn's one outcome. */
    method Notify(state: State, text: string, error: string)
      modifies this`outcomes
      ensures outcomes == old(outcomes) + [Outcome(state, text, Counts(), error)]
    {
      outcomes := outcomes + [Outcome(state, text, Counts(), error)];
    }

    /** The closing artifact always carries the whole answer and replaces what was streamed. */
    method Finalize(answer: string) returns (flow: Flow)
      modifies this`frames, this`signals
      ensures flow.Go? || flow.Threw?
      ensures flow.Go? ==> frames == old(frames) + ClosingFrames(aid, answer, Counts(), deltas, structured)
      ensures flow.Threw? ==> frames == old(frames)
      ensures old(Quiet()) ==> flow.Go? && Quiet()
      ensures old(TextKept()) ==> TextKept()
    {
      var parts: seq<Part> := [];
      if answer != "" {
        parts := parts + [TextPart(answer)];
      }
      if contextTokens > 0 {
        parts := parts + [ContextPart(contextTokens, if lastInput > 0 then Some(lastInput + lastOutput) else None)];
      }
      if answer != "" && structured.Some? {
        parts := parts + [DataPart(structured.value)];
      }
      var metadata := deltas != [] || (spend.calls > 0 && (spend.input != 0 || spend.output != 0));
      flow := Go;
      assert parts == ClosingParts(answer, Counts(), structured);
      if parts != [] || metadata {
        flow := Send(ArtifactFrame(aid, parts, false, true));
      }
    }

    /** A completed turn: flush, close the artifact, complete, record. */
    method Complete(answer: string) returns (flow: Flow)
      requires outcomes == []
      modifies this`reasoningBuf, this`textBuf, this`answerStarted, this`frames, this`signals, this`outcomes
      ensures flow.Returned? || flow.Threw?
      ensures flow.Threw? ==> outcomes == []
      ensures flow.Returned? ==> outcomes == [Outcome(Completed, answer, Counts(), "")]
      ensures flow.Returned? ==>
                frames == old(frames)
                          + (ReasoningFlush(old(reasoningBuf)) + TextFlush(aid, old(textBuf), old(answerStarted)))
                          + ClosingFrames(aid, answer, Counts(), deltas, structured) + [CompletedFrame]
      ensures old(Quiet()) ==> flow.Returned?
      ensures forall o :: o in outcomes ==> ShownAs(o, frames)
      ensures old(TextKept()) ==> TextKept()
    {
      flow := FlushBoth();
      if flow.Go? {
        flow := Close(answer);
      }
    }

    /** The completed frame and the record. */
    method Conclude(answer: string) returns (flow: Flow)
      requires outcomes == []
      modifies this`frames, this`signals, this`outcomes
      ensures flow.Returned? || flow.Threw?
      ensures flow.Threw? ==> outcomes == []
      ensures flow.Returned? ==> outcomes == [Outcome(Completed, answer, Counts(), "")]
      ensures flow.Returned? ==> frames == old(frames) + [CompletedFrame]
      ensures old(Quiet()) ==> flow.Returned?
      ensures forall o :: o in outcomes ==> ShownAs(o, frames)
      ensures old(TextKept()) ==> TextKept()
    {
      flow := Send(CompletedFrame);
      if flow.Go? {
        Notify(Completed, answer, "");
        flow := Returned;
      }
    }

    /** The closing artifact, the completed frame and the record. */
    method Close(answer: string) returns (flow: Flow)
      requires outcomes == []
      modifies this`frames, this`signals, this`outcomes
      ensures flow.Returned? || flow.Threw?
      ensures flow.Threw? ==> outcomes == []
      ensures flow.Returned? ==> outcomes == [Outcome(Completed, answer, Counts(), "")]
      ensures flow.Returned? ==>
                frames == old(frames) + ClosingFrames(aid, answer, Counts(), deltas, structured) + [CompletedFrame]
      ensures old(Quiet()) ==> flow.Returned?
      ensures forall o :: o in outcomes ==> ShownAs(o, frames)
      ensures old(TextKept()) ==> TextKept()
    {
      flow := Finalize(answer);
      if flow.Go? {
        flow := Conclude(answer);
      }
    }

    /** The prompt and the record. */
    method Pause(prompt: string) returns (flow: Flow)
      requires outcomes == []
      modifies this`frames, this`signals, this`outcomes
      ensures flow.Returned? || flow.Threw?
      ensures flow.Threw? ==> outcomes == []
      ensures flow.Returned? ==> outcomes == [Outcome(Parked, accumulated, Counts(), "")]
      ensures flow.Returned? ==> frames == old(frames) + [InputRequiredFrame(prompt)]
      ensures old(Quiet()) ==> flow.Returned?
      ensures forall o :: o in outcomes ==> ShownAs(o, frames)
      ensures old(TextKept()) ==> TextKept()
    {
      flow := Send(InputRequiredFrame(prompt));
      if flow.Go? {
        Notify(Parked, accumulated, "");
        flow := Returned;
      }
    }

    /** A pause for input: both buffers go out, then the prompt; the turn is recorded as parked. */
    method Park(prompt: string) returns (flow: Flow)
      requires outcomes == []
      modifies this`reasoningBuf, this`textBuf, this`answerStarted, this`frames, this`signals, this`outcomes
      ensures flow.Returned? || flow.Threw?
      ensures flow.Threw? ==> outcomes == []
      ensures flow.Returned? ==> outcomes == [Outcome(Parked, accumulated, Counts(), "")]
      ensures flow.Returned? ==>
                frames == old(frames)
                          + (ReasoningFlush(old(reasoningBuf)) + TextFlush(aid, old(textBuf), old(answerStarted)))
                          + [InputRequiredFrame(prompt)]
      ensures old(Quiet()) ==> flow.Returned?
      ensures forall o :: o in outcomes ==> ShownAs(o, frames)
      ensures old(TextKept()) ==> TextKept()
    {
      flow := FlushBoth();
      if flow.Go? {
        flow := Pause(prompt);
      }
    }

    /** A failed turn: the error frame goes out and the turn is recorded; a failed send records nothing. */
    method Fail(message: string) returns (flow: Flow)
      requires outcomes == []
      modifies this`frames, this`signals, this`outcomes
      ensures flow.Returned? || flow.Threw?
      ensures flow.Threw? ==> outcomes == []
      ensures flow.Returned? ==> outcomes == [Outcome(Failed, accumulated, Counts(), message)]
      ensures flow.Returned? ==> frames == old(frames) + [FailedFrame(message)]
      ensures old(Quiet()) ==> flow.Returned?
      ensures forall o :: o in outcomes ==> ShownAs(o, frames)
      ensures old(TextKept()) ==> TextKept()
    {
      flow := Send(FailedFrame(message));
      if flow.Threw? { return; }
      Notify(Failed, accumulated, message);
      flow := Returned;
    }

    /** The buffers, as a closing flush sends them, end the turn's streamed frames. */
    lemma FlushEndsStream()
      requires Valid()
      ensures frames + (ReasoningFlush(reasoningBuf) + TextFlush(aid, textBuf, answerStarted)) == Flushed(aid, run)
    {
    }

    method HandleDone(answer: string) returns (flow: Flow)
      requires Valid()
      modifies this`reasoningBuf, this`textBuf, this`answerStarted, this`frames, this`signals, this`outcomes
      ensures flow.Returned? || flow.Threw?
      ensures if flow.Threw? then outcomes == [] else outcomes == [OutcomeOf(old(run), AtEvent(Done(answer)))]
      ensures flow.Returned? ==> frames == AllFrames(aid, old(run), AtEvent(Done(answer)), structured)
      ensures old(Quiet()) ==> flow.Returned?
      ensures forall o :: o in outcomes ==> ShownAs(o, frames)
      ensures old(TextKept()) ==> TextKept()
    {
      FlushEndsStream();
      flow := Complete(if answer != "" then answer else accumulated);
    }

    method HandleInputRequired(prompt: string) returns (flow: Flow)
      requires Valid()
      modifies this`reasoningBuf, this`textBuf, this`answerStarted, this`frames, this`signals, this`outcomes
      ensures flow.Returned? || flow.Threw?
      ensures if flow.Threw? then outcomes == [] else outcomes == [OutcomeOf(old(run), AtEvent(InputRequired(prompt)))]
      ensures flow.Returned? ==> frames == AllFrames(aid, old(run), AtEvent(InputRequired(prompt)), structured)
      ensures old(Quiet()) ==> flow.Returned?
      ensures forall o :: o in outcomes ==> ShownAs(o, frames)
      ensures old(TextKept()) ==> TextKept()
    {
      FlushEndsStream();
      flow := Park(prompt);
    }

    /** Buffered reasoning goes out, buffered text does not; then the turn fails. */
    method FailAfterReasoning(message: string) returns (flow: Flow)
      requires outcomes == []
      modifies this`reasoningBuf, this`frames, this`signals, this`outcomes
      ensures flow.Returned? || flow.Threw?
      ensures flow.Threw? ==> outcomes == []
      ensures flow.Returned? ==> outcomes == [Outcome(Failed, accumulated, Counts(), message)]
      ensures flow.Returned? ==>
                frames == old(frames) + ReasoningFlush(old(reasoningBuf)) + [FailedFrame(message)]
      ensures old(Quiet()) ==> flow.Returned?
      ensures forall o :: o in outcomes ==> ShownAs(o, frames)
      ensures old(TextKept()) ==> TextKept()
    {
      flow := FlushReasoning();
      if flow.Threw? { return; }
      flow := Fail(message);
    }

    method HandleError(message: string) returns (flow: Flow)
      requires Valid()
      modifies this`reasoningBuf, this`textBuf, this`answerStarted, this`frames, this`signals, this`outcomes
      ensures flow.Returned? || flow.Threw?
      ensures if flow.Threw? then outcomes == [] else outcomes == [OutcomeOf(old(run), AtEvent(Error(message)))]
      ensures flow.Returned? ==> frames == AllFrames(aid, old(run), AtEvent(Error(message)), structured)
      ensures old(Quiet()) ==> flow.Returned?
      ensures forall o :: o in outcomes ==> ShownAs(o, frames)
      ensures old(TextKept()) ==> TextKept()
    {
      flow := FailAfterReasoning(message);
    }

    /** A terminal event: reasoning goes out first, then the turn closes as the event says. */
    method HandleTerminal(e: Event) returns (flow: Flow)
      requires Valid() && Terminal(e)
      modifies this`reasoningBuf, this`textBuf, this`answerStarted, this`frames, this`signals, this`outcomes
      ensures flow.Returned? || flow.Threw?
      ensures if flow.Threw? then outcomes == [] else outcomes == [OutcomeOf(old(run), AtEvent(e))]
      ensures flow.Returned? ==> frames == AllFrames(aid, old(run), AtEvent(e), structured)
      ensures old(Quiet()) ==> flow.Returned?
      ensures forall o :: o in outcomes ==> ShownAs(o, frames)
      ensures old(TextKept()) ==> TextKept()
    {
      match e
      case Done(answer) => flow := HandleDone(answer);
      case InputRequired(prompt) => flow := HandleInputRequired(prompt);
      case Error(message) => flow := HandleError(message);
    }

    /** Both buffers go out, then the failure. */
    method FailAfterBoth(message: string)
      requires outcomes == []
      modifies this`reasoningBuf, this`textBuf, this`answerStarted, this`frames, this`signals, this`outcomes
      ensures outcomes == [] || outcomes == [Outcome(Failed, accumulated, Counts(), message)]
      ensures outcomes != [] ==> EndsWith(frames, FailedFrame(message))
      ensures old(Quiet()) ==>
                && outcomes != []
                && frames == old(frames)
                             + (ReasoningFlush(old(reasoningBuf)) + TextFlush(aid, old(textBuf), old(answerStarted)))
                             + [FailedFrame(message)]
      ensures old(TextKept()) ==> TextKept()
    {
      var flow := FlushBoth();
      if flow.Threw? { return; }
      flow := Fail(message);
    }

    /** A stalled stream. */
    method HandleStall(message: string)
      requires outcomes == []
      modifies this`reasoningBuf, this`textBuf, this`answerStarted, this`frames, this`signals, this`outcomes
      ensures |outcomes| <= 1
      ensures old(Valid() && Quiet()) ==>
                outcomes == [OutcomeOf(old(run), AtEnd(Breaks(Stalled(message))))]
                && frames == AllFrames(aid, old(run), AtEnd(Breaks(Stalled(message))), structured)
      ensures old(TextKept()) ==> TextKept()
      ensures forall o :: o in outcomes ==> o.state == Failed && o.text == accumulated && o.error == message
      ensures forall o :: o in outcomes ==> ShownAs(o, frames)
    {
      FailAfterBoth(message);
    }

    /** What happens when the loop is broken off by an exception. */
    method HandleException(exc: Exc)
      requires outcomes == []
      modifies this`reasoningBuf, this`textBuf, this`answerStarted, this`frames, this`signals, this`outcomes
      ensures |outcomes| <= 1
      ensures old(Valid() && Quiet()) ==>
                outcomes == [OutcomeOf(old(run), AtEnd(Breaks(exc)))]
                && frames == AllFrames(aid, old(run), AtEnd(Breaks(exc)), structured)
      ensures old(TextKept()) ==> TextKept()
      ensures forall o :: o in outcomes ==> o.text == accumulated && ShownAs(o, frames)
      ensures forall o :: o in outcomes ==>
                if exc.Cancelled? then o.state == Canceled && o.error == ""
                else o.state == Failed && o.error == exc.message
    {
      match exc
      case Cancelled => Notify(Canceled, accumulated, "");
      case Crashed(message) => var flow := Fail(message);
      case Stalled(message) => HandleStall(message);
    }

    /** The turn has handled the first `i` events, none of them terminal. */
    ghost predicate HandledUpTo(events: seq<Timed>, i: nat)
      reads this
    {
      i <= Lead(events) && Valid() && run == events[..i]
    }

    method HandleNext(events: seq<Timed>, i: nat) returns (flow: Flow)
      requires i < |events| && !Terminal(events[i].0) && HandledUpTo(events, i)
      modifies this
      ensures flow.Go? || flow.Threw?
      ensures outcomes == []
      ensures flow.Go? ==> HandledUpTo(events, i + 1)
      ensures old(Quiet()) ==> flow.Go? && Quiet()
      ensures old(TextKept()) ==> TextKept()
      ensures accumulated <= TextOf(Events(Handled(events)))
    {
      LeadGoesOn(events, i, Lead(events));
      HandledTextGrows(events, i);
      flow := HandleEvent(events[i].0, events[i].1);
    }

    /** Handles the events before the first terminal one. */
    method HandleLead(events: seq<Timed>) returns (flow: Flow, i: nat)
      requires Valid() && run == []
      modifies this
      ensures flow.Go? || flow.Threw?
      ensures outcomes == []
      ensures flow.Go? ==> i == Lead(events) && Valid() && run == Handled(events)
      ensures old(Quiet()) ==> flow.Go? && Quiet()
      ensures TextKept() && accumulated <= TextOf(Events(Handled(events)))
    {
      flow, i := Go, 0;
      ValidKeepsText();
      while i < |events| && !Terminal(events[i].0)
        invariant i <= |events| && flow.Go?
        invariant HandledUpTo(events, i) && TextKept()
        invariant old(Quiet()) ==> Quiet()
        decreases |events| - i
      {
        flow := HandleNext(events, i);
        if flow.Threw? { return; }
        i := i + 1;
      }
      LeadIsOver(events, i, Lead(events));
    }

    /** The stream ended without a terminal event: the turn completes with all that it streamed. */
    method HandleEnd() returns (flow: Flow)
      requires Valid()
      modifies this`reasoningBuf, this`textBuf, this`answerStarted, this`frames, this`signals, this`outcomes
      ensures flow.Returned? || flow.Threw?
      ensures if flow.Threw? then outcomes == [] else outcomes == [OutcomeOf(old(run), AtEnd(EndOfStream))]
      ensures flow.Returned? ==> frames == AllFrames(aid, old(run), AtEnd(EndOfStream), structured)
      ensures old(Quiet()) ==> flow.Returned?
      ensures forall o :: o in outcomes ==> ShownAs(o, frames)
      ensures old(TextKept()) ==> TextKept()
    {
      FlushEndsStream();
      flow := Complete(accumulated);
    }

    /** The event loop proper, up to the terminal event or the end of the stream. */
    method Drive(events: seq<Timed>, ending: Ending) returns (flow: Flow)
      requires Valid() && run == []
      modifies this
      ensures flow.Returned? || flow.Threw?
      ensures if flow.Threw? then outcomes == [] else |outcomes| == 1
      ensures old(Quiet()) && flow.Returned? ==>
                outcomes == [OutcomeOf(Handled(events), StopOf(events, ending))]
                && frames == AllFrames(aid, Handled(events), StopOf(events, ending), structured)
      ensures old(Quiet()) && flow.Threw? ==>
                Valid() && Quiet() && run == Handled(events) && StopOf(events, ending) == AtEnd(Breaks(flow.exc))
      ensures TextKept() && accumulated <= TextOf(Events(Handled(events)))
      ensures forall o :: o in outcomes && !o.state.Completed? ==> o.text == accumulated
      ensures forall o :: o in outcomes ==> ShownAs(o, frames)
    {
      var i;
      flow, i := HandleLead(events);
      if flow.Threw? { return; }
      if i < |events| {
        flow := HandleTerminal(events[i].0);
        return;
      }
      if ending.Breaks? {
        return Threw(ending.exc);
      }
      flow := HandleEnd();
    }

    /** Runs one turn over a producer's stream: it records at most one outcome, and when every
        send succeeds exactly one, and the frame log is exactly that of the fold. Whatever sends
        fail, the chunks sent hold the text of the handled events up to some point, and nothing
        else; what follows them is buffered still, and an outcome that is no completion carries both. */
    method Execute(events: seq<Timed>, ending: Ending)
      requires Valid() && run == []
      modifies this
      ensures |outcomes| <= 1
      ensures old(Quiet()) ==> outcomes == [OutcomeOf(Handled(events), StopOf(events, ending))]
      ensures old(Quiet()) ==> frames == AllFrames(aid, Handled(events), StopOf(events, ending), structured)
      ensures old(Quiet()) ==> |outcomes| == 1 && outcomes[0].counts == CountAll(Events(Handled(events)))
      ensures old(Quiet()) ==>
                var o, said := outcomes[0], TextOf(Events(Handled(events)));
                match StopOf(events, ending)
                case AtEvent(Done(answer)) =>
                  o.state == Completed && o.text == (if answer != "" then answer else said) && o.error == ""
                  && EndsWith(frames, CompletedFrame)
                case AtEvent(Error(message)) =>
                  o.state == Failed && o.text == said && o.error == message && EndsWith(frames, FailedFrame(message))
                case AtEvent(InputRequired(prompt)) =>
                  o.state == Parked && o.text == said && o.error == "" && EndsWith(frames, InputRequiredFrame(prompt))
                case AtEvent(_) => false
                case AtEnd(EndOfStream) =>
                  o.state == Completed && o.text == said && o.error == "" && EndsWith(frames, CompletedFrame)
                case AtEnd(Breaks(Crashed(message))) =>
                  o.state == Failed && o.text == said && o.error == message && EndsWith(frames, FailedFrame(message))
                case AtEnd(Breaks(Stalled(message))) =>
                  o.state == Failed && o.text == said && o.error == message && EndsWith(frames, FailedFrame(message))
                case AtEnd(Breaks(Cancelled)) =>
                  o.state == Canceled && o.text == said && o.error == "" && forall f :: f in frames ==> Streamed(f)
      ensures forall o :: o in outcomes ==> ShownAs(o, frames)
      ensures TextKept() && accumulated <= TextOf(Events(Handled(events)))
      ensures forall o :: o in outcomes && !o.state.Completed? ==> o.text == accumulated
    {
      HowATurnCloses(aid, Handled(events), StopOf(events, ending), structured);
      var flow := Drive(events, ending);
      if flow.Threw? {
        HandleException(flow.exc);
      }
    }
  }

  function ComponentFrames(e: Event): seq<Frame> {
    if e.Component? && e.component.Some? then [ComponentFrame(e.component.value)] else []
  }

  /** The step of the fold for an event that neither streams nor concerns a tool. */
  lemma OtherSteps(id: string, b: Buffers, e: Event, due: bool)
    requires !e.Text? && !e.Reasoning? && !e.ToolStart? && !e.ToolEnd?
    ensures Step(id, b, (e, due))
            == Buffers(b.frames + ReasoningFlush(b.thought) + ComponentFrames(e), b.text, "", b.started)
    ensures EventText(e) == ""
  {
    Regroup(b.frames, ReasoningFlush(b.thought), ComponentFrames(e));
    assert b.frames + ReasoningFlush(b.thought) + [] == b.frames + ReasoningFlush(b.thought);
  }

  /** The buffers with more text, flushed if that makes it due. */
  function WithText(id: string, b: Buffers, more: string, due: bool): Buffers {
    var text := b.text + more;
    if ShouldFlush(text, due)
    then Buffers(b.frames + TextFlush(id, text, b.started), "", b.thought, b.started || text != "")
    else b.(text := text)
  }

  /** The step of the fold for a text event: its text is added behind the reasoning flush. */
  lemma TextSteps(id: string, b: Buffers, more: string, due: bool)
    ensures Step(id, b, (Text(more), due))
            == WithText(id, Buffers(b.frames + ReasoningFlush(b.thought), b.text, "", b.started), more, due)
  {
    Regroup(b.frames, ReasoningFlush(b.thought), TextFlush(id, b.text + more, b.started));
    assert ReasoningFlush(b.thought) + [] == ReasoningFlush(b.thought);
  }

  function BothFlushed(id: string, b: Buffers): Buffers {
    Buffers(b.frames + (ReasoningFlush(b.thought) + TextFlush(id, b.text, b.started)), "", "",
            b.started || b.text != "")
  }

  function CardSent(b: Buffers, end: bool, tool: ToolPayload): Buffers {
    b.(frames := b.frames + ToolFrames(end, tool))
  }

  /** The step of the fold for a tool event: its card behind both flushes. */
  lemma ToolSteps(id: string, b: Buffers, c: Counters, end: bool, tool: ToolPayload, due: bool)
    ensures var e := if end then ToolEnd(tool) else ToolStart(tool);
            && Step(id, b, (e, due)) == CardSent(BothFlushed(id, b), end, tool)
            && Count(c, e) == (if end then c else CountStart(c, tool))
            && EventText(e) == "" && EventDelta(e) == []
  {
    Regroup(b.frames, ReasoningFlush(b.thought) + TextFlush(id, b.text, b.started), ToolFrames(end, tool));
  }

  lemma OneMoreFrame(frames: seq<Frame>, f: Frame)
    ensures ChunkText(frames + [f]) == ChunkText(frames) + FrameText(f)
  {
    assert (frames + [f])[..|frames|] == frames;
  }

  lemma ChunkShows(id: string, text: string, append: bool)
    ensures FrameText(ArtifactFrame(id, [TextPart(text)], append, false)) == text
  {
    FlatOne(TextPart(text), PartText);
  }

  lemma AgreesOnwards(id: string, b: Buffers, c: Counters, text: string, ds: seq<string>, run: seq<Timed>,
                      e: Event, due: bool)
    requires Agrees(id, b, c, text, ds, run)
    ensures Agrees(id, Step(id, b, (e, due)), Count(c, e), text + EventText(e), ds + EventDelta(e), run + [(e, due)])
  {
    EventAdvances(id, run, (e, due));
  }

  /** The fold over one more event, field by field. */
  lemma EventAdvances(id: string, run: seq<Timed>, t: Timed)
    ensures Run(id, run + [t]) == Step(id, Run(id, run), t)
    ensures CountAll(Events(run + [t])) == Count(CountAll(Events(run)), t.0)
    ensures TextOf(Events(run + [t])) == TextOf(Events(run)) + EventText(t.0)
    ensures Flat(Events(run + [t]), EventDelta) == Flat(Events(run), EventDelta) + EventDelta(t.0)
  {
    var longer := run + [t];
    assert longer[..|longer| - 1] == run;
    EventsSnoc(longer);
    assert Events(longer)[..|run|] == Events(run);
  }
}
