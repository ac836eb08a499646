/** The two logs of a streamed turn: the producer's events going in and the frames going
    out, and the readings of each log that batching must not disturb. */
module TurnLog {
  import opened Wrappers

  /** A tool payload is structured, with an optional call id, or a legacy plain string. */
  datatype ToolPayload =
    | Structured(id: Option<string>, name: string, body: string)
    | Plain(text: string)

  datatype Usage = Usage(
    input: int, output: int, cacheRead: int, cacheCreation: int, cost: real,
    model: string, delegated: bool)

  /** Payloads of the wrong shape (`None`) are ignored by the turn. */
  datatype Event =
    | Text(text: string)
    | ToolStart(tool: ToolPayload)
    | ToolEnd(tool: ToolPayload)
    | Component(component: Option<string>)
    | Reasoning(thought: string)
    | Delta(delta: Option<string>)
    | UsageReport(usage: Option<Usage>)
    | InputRequired(prompt: string)
    | Done(answer: string)
    | Error(message: string)

  /** Answer text, the context-window readout, or any other structured data. */
  datatype Part = TextPart(text: string) | ContextPart(tokens: nat, projected: Option<int>) | DataPart(data: string)

  datatype Frame =
    | ReasoningFrame(thought: string)
    | ArtifactFrame(id: string, parts: seq<Part>, append: bool, lastChunk: bool)
    | ToolFrame(end: bool, tool: ToolPayload)
    | ComponentFrame(component: string)
    | InputRequiredFrame(prompt: string)
    | CompletedFrame
    | FailedFrame(message: string)

  /** A frame emitted before the turn's closing frames. */
  predicate Streamed(f: Frame) {
    f.ReasoningFrame? || f.ToolFrame? || f.ComponentFrame? || (f.ArtifactFrame? && !f.lastChunk)
  }

  // ---- Readings of a log -----------------------------------------------------------------

  /** Reads a log entry by entry and joins what each entry shows. */
  function Flat<A, T>(xs: seq<A>, shows: A -> seq<T>): seq<T> {
    if xs == [] then [] else Flat(xs[..|xs| - 1], shows) + shows(xs[|xs| - 1])
  }

  lemma FlatOne<A, T>(x: A, shows: A -> seq<T>)
    ensures Flat([x], shows) == shows(x)
  {
  }

  lemma {:induction false} FlatJoin<A, T>(xs: seq<A>, ys: seq<A>, shows: A -> seq<T>)
    ensures Flat(xs + ys, shows) == Flat(xs, shows) + Flat(ys, shows)
  {
    if ys == [] {
      assert xs + ys == xs;
    } else {
      var n := |ys| - 1;
      assert (xs + ys)[..|xs| + n] == xs + ys[..n];
      FlatJoin(xs, ys[..n], shows);
    }
  }

  function EventText(e: Event): string { if e.Text? then e.text else "" }

  function EventThought(e: Event): string { if e.Reasoning? then e.thought else "" }

  function PartText(p: Part): string { if p.TextPart? then p.text else "" }

  /** The answer text of a streamed chunk. */
  function FrameText(f: Frame): string {
    if f.ArtifactFrame? && !f.lastChunk then Flat(f.parts, PartText) else ""
  }

  function FrameThought(f: Frame): string { if f.ReasoningFrame? then f.thought else "" }

  function TextOf(es: seq<Event>): string { Flat(es, EventText) }

  function ReasonOf(es: seq<Event>): string { Flat(es, EventThought) }

  function ChunkText(fs: seq<Frame>): string { Flat(fs, FrameText) }

  function ThoughtText(fs: seq<Frame>): string { Flat(fs, FrameThought) }

  /** What a reader sees one at a time: a character, or a tool card. */
  datatype Item = Glyph(c: char) | Card(end: bool, tool: ToolPayload)

  function Glyphs(s: string): seq<Item> {
    seq(|s|, i requires 0 <= i < |s| => Glyph(s[i]))
  }

  /** Only a plain payload that is empty shows no card. */
  function CardOf(end: bool, tool: ToolPayload): seq<Item> {
    if tool.Plain? && tool.text == "" then [] else [Card(end, tool)]
  }

  function ToolItems(e: Event): seq<Item> {
    match e
    case ToolStart(tool) => CardOf(false, tool)
    case ToolEnd(tool) => CardOf(true, tool)
    case _ => []
  }

  // Text and tool cards together, and reasoning and tool cards together, un-batched.

  function EventTextItems(e: Event): seq<Item> { Glyphs(EventText(e)) + ToolItems(e) }

  function EventThoughtItems(e: Event): seq<Item> { Glyphs(EventThought(e)) + ToolItems(e) }

  function FrameTextItems(f: Frame): seq<Item> {
    if f.ToolFrame? then CardOf(f.end, f.tool) else Glyphs(FrameText(f))
  }

  function FrameThoughtItems(f: Frame): seq<Item> {
    if f.ToolFrame? then CardOf(f.end, f.tool) else Glyphs(FrameThought(f))
  }

  lemma GlyphsJoin(a: string, b: string)
    ensures Glyphs(a + b) == Glyphs(a) + Glyphs(b)
  {
  }

  // ---- Reasoning before later text -----------------------------------------------------------

  /** The reasoning that precedes the event holding the `n`-th character of the text. */
  function ReasonBefore(es: seq<Event>, n: nat): string {
    if es == [] || n == 0 then "" else
    var before := es[..|es| - 1];
    if n <= |TextOf(before)| then ReasonBefore(before, n) else ReasonOf(before)
  }

  /** The chunk at position `p` comes after all reasoning that precedes any of its characters. */
  ghost predicate LeadAt(es: seq<Event>, fs: seq<Frame>, p: nat)
    requires p < |fs|
  {
    fs[p].ArtifactFrame? && !fs[p].lastChunk ==>
      ReasonBefore(es, |ChunkText(fs[..p + 1])|) <= ThoughtText(fs[..p])
  }

  ghost predicate ReasonLeads(es: seq<Event>, fs: seq<Frame>) {
    forall p :: 0 <= p < |fs| ==> LeadAt(es, fs, p)
  }
}
