/** Compacting one thread: where the retained tail may start, and when the live history may be
    rewritten at all. */
module Compaction {
  import opened Chunking
  import opened KnowledgeIngest
  import opened Strings
  import opened Wrappers

  /** A call id may be empty: missing. */
  datatype Msg = Assistant(calls: seq<string>, text: string)
               | ToolResult(callId: string, output: string)
               | Human(content: string)

  // ---- Histories ---------------------------------------------------------------------------

  /** The message right before the block of tool results that this position belongs to. */
  function CallerOf(h: seq<Msg>, i: nat): Option<nat>
    requires i <= |h|
  {
    if i == 0 then None
    else if h[i - 1].ToolResult? then CallerOf(h, i - 1)
    else Some(i - 1)
  }

  predicate Answers(h: seq<Msg>, i: nat, j: nat)
    requires i < |h| && j < |h| && h[i].ToolResult?
  {
    h[j].Assistant? && h[i].callId != "" && h[i].callId in h[j].calls
  }

  /** Every tool result directly follows, among others, the assistant message that asked for it. */
  predicate WellFormed(h: seq<Msg>) {
    forall i :: 0 <= i < |h| && h[i].ToolResult? ==>
      CallerOf(h, i).Some? && CallerOf(h, i).value < i && Answers(h, i, CallerOf(h, i).value)
  }

  lemma {:induction false} CallerPrecedes(h: seq<Msg>, i: nat)
    requires i <= |h|
    ensures var c := CallerOf(h, i);
            var j := if c.Some? then c.value + 1 else 0;
            && j <= i && (c.Some? ==> c.value < i && !h[c.value].ToolResult?)
            && forall k :: j <= k < i ==> h[k].ToolResult?
  {
    if i > 0 && h[i - 1].ToolResult? { CallerPrecedes(h, i - 1); }
  }

  lemma {:induction false} CallerInTail(h: seq<Msg>, c: nat, i: nat)
    requires c <= i <= |h|
    ensures CallerOf(h[c..], i - c) ==
            if CallerOf(h, i).Some? && CallerOf(h, i).value >= c then Some(CallerOf(h, i).value - c) else None
  {
    if i > c {
      assert h[c..][i - c - 1] == h[i - 1];
      if h[i - 1].ToolResult? { CallerInTail(h, c, i - 1); }
    } else {
      CallerPrecedes(h, i);
    }
  }

  /** A tail of a well-formed history orphans no tool result exactly when it does not start at one. */
  lemma TailIsWellFormed(h: seq<Msg>, c: nat)
    requires WellFormed(h) && c <= |h|
    ensures WellFormed(h[c..]) <==> c == |h| || !h[c].ToolResult?
  {
    var tail := h[c..];
    if c < |h| && h[c].ToolResult? {
      CallerInTail(h, c, c);
      CallerPrecedes(h, c);
      assert tail[0] == h[c] && CallerOf(tail, 0).None?;
    } else {
      forall i | 0 <= i < |tail| && tail[i].ToolResult?
        ensures CallerOf(tail, i).Some? && CallerOf(tail, i).value < i && Answers(tail, i, CallerOf(tail, i).value)
      {
        CallerPrecedes(h, c + i);
        CallerInTail(h, c, c + i);
        assert tail[i] == h[c + i] && tail[0] == h[c];
      }
    }
  }

  // ---- The cut ---------------------------------------------------------------------------------

  /** The end of the block of tool results at a position. */
  function BlockEnd(h: seq<Msg>, i: nat): (e: nat)
    requires i <= |h|
    ensures i <= e <= |h| && (e == |h| || !h[e].ToolResult?)
    ensures forall k :: i <= k < e ==> h[k].ToolResult?
    decreases |h| - i
  {
    if i < |h| && h[i].ToolResult? then BlockEnd(h, i + 1) else i
  }

  function BlockIds(h: seq<Msg>, i: nat, e: nat): set<string>
    requires i <= e <= |h|
  {
    set k | i <= k < e && h[k].ToolResult? && h[k].callId != "" :: h[k].callId
  }

  predicate Asks(m: Msg, ids: set<string>) {
    m.Assistant? && exists id :: id in m.calls && id != "" && id in ids
  }

  /** The cut the code computes: the wished one if it is no tool result; else the nearest earlier
      assistant message that asked for one of the block; else past the block. */
  ghost predicate IsCut(h: seq<Msg>, keep: int, cut: nat) {
    var target := if keep <= 0 then |h| else if |h| <= keep then 0 else |h| - keep;
    if (keep > 0 && |h| <= keep) || target == |h| || !h[target].ToolResult? then cut == target
    else
      var end := BlockEnd(h, target);
      var ids := BlockIds(h, target, end);
      if cut < target then Asks(h[cut], ids) && forall k :: cut < k < target ==> !Asks(h[k], ids)
      else cut == end && forall k :: 0 <= k < target ==> !Asks(h[k], ids)
  }

  method SafeCutIndex(h: seq<Msg>, keep: int) returns (cut: nat)
    ensures cut <= |h| && IsCut(h, keep, cut)
  {
    var target := |h|;
    if keep > 0 {
      if |h| <= keep {
        return 0;
      }
      target := |h| - keep;
    }
    if target >= |h| || !h[target].ToolResult? {
      return target;
    }
    var ids: set<string>, idx := {}, target;
    while idx < |h| && h[idx].ToolResult?
      invariant target <= idx <= |h| && BlockEnd(h, idx) == BlockEnd(h, target)
      invariant ids == BlockIds(h, target, idx)
    {
      if h[idx].callId != "" {
        ids := ids + {h[idx].callId};
      }
      idx := idx + 1;
    }
    var i := target - 1;
    while i >= 0
      invariant -1 <= i < target
      invariant forall k :: i < k < target ==> !Asks(h[k], ids)
    {
      if Asks(h[i], ids) {
        return i;
      }
      i := i - 1;
    }
    return idx;
  }

  /** Whatever the history, the tail never starts at a tool result, and it is shorter than asked
      for only when nothing asked for the block at the wished cut. */
  lemma CutNeverStartsAtAResult(h: seq<Msg>, keep: int, cut: nat)
    requires cut <= |h| && IsCut(h, keep, cut)
    ensures cut == |h| || !h[cut].ToolResult? || (keep > 0 && |h| <= keep && cut == 0)
    ensures keep > 0 && |h| - cut < keep <= |h| ==>
              h[|h| - keep].ToolResult? &&
              forall k :: 0 <= k < |h| - keep ==> !Asks(h[k], BlockIds(h, |h| - keep, BlockEnd(h, |h| - keep)))
  {
  }

  /** At a wished cut inside a block of tool results, the cut moves back to an assistant message. */
  lemma CutMovesToTheCaller(h: seq<Msg>, keep: int, cut: nat)
    requires WellFormed(h) && 0 < keep < |h| && IsCut(h, keep, cut) && h[|h| - keep].ToolResult?
    ensures cut == CallerOf(h, |h| - keep).value < |h| - keep && !h[cut].ToolResult?
    ensures forall c :: cut < c <= |h| - keep ==> h[c].ToolResult?
  {
    var target := |h| - keep;
    CallerPrecedes(h, target);
    var ids := BlockIds(h, target, BlockEnd(h, target));
    var j := CallerOf(h, target).value;
    assert h[target].callId in ids;
    assert Asks(h[j], ids);
  }

  /** Over a well-formed history and a positive number to keep, the cut is the largest index that
      keeps so many whose tail orphans no tool result; nothing is cut off a short history. */
  lemma CutIsTheLargestSafeOne(h: seq<Msg>, keep: int, cut: nat)
    requires WellFormed(h) && keep > 0 && cut <= |h| && IsCut(h, keep, cut)
    ensures |h| <= keep ==> cut == 0
    ensures |h| > keep ==> cut <= |h| - keep && WellFormed(h[cut..]) &&
                           forall c :: cut < c <= |h| - keep ==> !WellFormed(h[c..])
  {
    if |h| > keep {
      var target := |h| - keep;
      forall c | 0 <= c <= target ensures WellFormed(h[c..]) <==> !h[c].ToolResult? { TailIsWellFormed(h, c); }
      if h[target].ToolResult? { CutMovesToTheCaller(h, keep, cut); }
    }
  }

  // ---- The pass --------------------------------------------------------------------------------------

  datatype Reason = Done | NoCheckpointer | TooShort | NoStore | EmptyTranscript | ArchiveError | EmptyArchive
                  | SummaryError | NoSummary

  datatype Report = Report(reason: Reason, chunks: nat, kept: nat, removed: nat, archived: bool, refused: bool)

  /** What the summarizer comes to, trimmed. */
  datatype Summary = SummaryRaised | Text(s: string)

  /** How a note begins, and what stands in it for a summary that is missing. */
  datatype Wording = Wording(lead: string, stub: string)

  /** What a pass meets: whether there is a checkpointer and a store; how an assistant's text is
      cleaned and a stored piece scrubbed; the sizes the store splits by, the contexts it puts ahead
      of the pieces and the fates of their inserts; the summary; and the wording of the note that
      takes the history's place, for a transcript that was archived and for one that was not. */
  datatype World = World(
    checkpointer: bool, store: bool, clean: string -> string, scrub: string -> string,
    sizes: Sizes, contexts: seq<string>, fates: seq<Fate>, summary: Summary, archived: Wording, lost: Wording)

  predicate HasText(s: Summary) { s.Text? && s.s != "" }

  /** A text that is a lead of its own and then another. */
  predicate EndsIn(whole: string, end: string) {
    |whole| >= |end| && whole[|whole| - |end|..] == end
  }

  lemma LeadThenText(lead: string, text: string)
    ensures EndsIn(lead + text, text) && lead <= lead + text
  {
  }

  function Refusal(reason: Reason, kept: nat, chunks: nat): Report {
    Report(reason, chunks, kept, 0, chunks > 0, !reason.TooShort?)
  }

  // ---- The archived transcript --------------------------------------------------------------------------

  /** The line a message has in the transcript: none for a tool result or a message that says nothing. */
  function LineOf(m: Msg, clean: string -> string): Option<string> {
    match m
    case Human(content) => if Strip(content) == "" then None else Some("User: " + Strip(content))
    case Assistant(_, text) =>
      if Strip(text) == "" || Strip(clean(text)) == "" then None else Some("Assistant: " + Strip(clean(text)))
    case ToolResult(_, _) => None
  }

  function Lines(h: seq<Msg>, clean: string -> string): seq<string> {
    if h == [] then [] else
    var n := |h| - 1;
    Lines(h[..n], clean) + if LineOf(h[n], clean).Some? then [LineOf(h[n], clean).value] else []
  }

  function JoinedLines(lines: seq<string>): string {
    if lines == [] then "" else
    var n := |lines| - 1;
    if n == 0 then lines[0] else JoinedLines(lines[..n]) + "\n" + lines[n]
  }

  /** The line names who said what; tool results and blank messages have none. */
  lemma WhatALineSays(m: Msg, clean: string -> string)
    ensures var line := LineOf(m, clean);
            match m
            case Human(content) =>
              if Strip(content) == "" then line.None? else line.Some? && "User: " <= line.value
                                                           && line.value[6..] == Strip(content)
            case Assistant(_, text) =>
              if Strip(text) == "" || Strip(clean(text)) == "" then line.None?
              else line.Some? && "Assistant: " <= line.value && line.value[11..] == Strip(clean(text))
            case ToolResult(_, _) => line.None?
  {
  }

  /** Messages keep their order in the transcript, each part's lines behind the other's. */
  lemma {:induction false} TranscriptsJoin(a: seq<Msg>, b: seq<Msg>, clean: string -> string)
    ensures Lines(a + b, clean) == Lines(a, clean) + Lines(b, clean)
  {
    if b == [] {
      assert a + b == a;
    } else {
      assert (a + b)[..|a + b| - 1] == a + b[..|b| - 1];
      TranscriptsJoin(a, b[..|b| - 1], clean);
    }
  }

  lemma {:induction false} LinesJoin(a: seq<string>, b: seq<string>)
    requires a != [] && b != []
    ensures JoinedLines(a + b) == JoinedLines(a) + "\n" + JoinedLines(b)
  {
    var n := |b| - 1;
    assert (a + b)[..|a| + n] == a + b[..n];
    if n == 0 {
      assert a + b[..n] == a;
    } else {
      LinesJoin(a, b[..n]);
      assert JoinedLines(a) + "\n" + (JoinedLines(b[..n]) + "\n" + b[n])
          == (JoinedLines(a) + "\n" + JoinedLines(b[..n])) + "\n" + b[n];
    }
  }

  function Transcript(h: seq<Msg>, clean: string -> string): string { JoinedLines(Lines(h, clean)) }

  method RenderTranscript(h: seq<Msg>, clean: string -> string) returns (transcript: string)
    ensures transcript == Transcript(h, clean)
  {
    var lines: seq<string> := [];
    for i := 0 to |h|
      invariant lines == Lines(h[..i], clean)
    {
      assert h[..i + 1][..i] == h[..i];
      match h[i]
      case Human(content) =>
        if Strip(content) != "" {
          lines := lines + ["User: " + Strip(content)];
        }
      case Assistant(_, text) =>
        if Strip(text) != "" && Strip(clean(text)) != "" {
          lines := lines + ["Assistant: " + Strip(clean(text))];
        }
      case ToolResult(_, _) =>
    }
    assert h[..|h|] == h;
    transcript := JoinedLines(lines);
  }

  /** The pieces as they are stored: of a document that splits, each behind its context, if it has one. */
  function InContext(pieces: seq<string>, contexts: seq<string>): seq<string> {
    if |pieces| < 2 then pieces
    else seq(|pieces|, i requires 0 <= i < |pieces| =>
               if i < |contexts| && contexts[i] != "" then contexts[i] + "\n\n" + pieces[i] else pieces[i])
  }

  /** The texts the archive write is made of. */
  function ArchiveTexts(h: seq<Msg>, w: World): seq<string> {
    InContext(Pieces(Transcript(h, w.clean), w.sizes), w.contexts)
  }

  /** The archive write is reached. */
  predicate Writes(h: seq<Msg>, w: World, keep: nat) {
    w.checkpointer && |h| > keep && w.store && Strip(Transcript(h, w.clean)) != ""
  }

  function Archiving(h: seq<Msg>, w: World, keep: nat): Ingest {
    if Writes(h, w, keep) then Ingested(ArchiveTexts(h, w), w.scrub, w.fates) else Ingest([], false)
  }

  /** What the code takes for an archive: the write came back with some row. */
  predicate Archives(h: seq<Msg>, w: World, keep: nat) {
    !Archiving(h, w, keep).raised && Archiving(h, w, keep).rows != []
  }

  /** An unforced pass rewrites the thread: there is such an archive, and a summary to show. */
  predicate Rewrites(h: seq<Msg>, w: World, keep: nat) {
    Archives(h, w, keep) && HasText(w.summary)
  }

  class Thread {
    const archive: Store
    var messages: seq<Msg>

    constructor (h: seq<Msg>, archive: Store)
      ensures messages == h && this.archive == archive
    {
      this.archive, messages := archive, h;
    }

    /** Splits the transcript and stores the pieces; the number of rows, or none if a write raised. */
    method Archive(transcript: string, w: World) returns (chunks: Option<nat>)
      modifies archive
      ensures var done := Ingested(InContext(Pieces(transcript, w.sizes), w.contexts), w.scrub, w.fates);
              && archive.rows == old(archive.rows) + done.rows
              && chunks == if done.raised then None else Some(|done.rows|)
    {
      var pieces := ChunkText(transcript, w.sizes);
      var ids := archive.AddDocument(InContext(pieces, w.contexts), w.scrub, w.fates);
      chunks := if ids.Some? then Some(|ids.value|) else None;
    }

    /** Archives the transcript: how many rows the code takes for an archive, and why the pass stops
        here, if it does.  A forced pass never does. */
    method ArchiveHistory(w: World, keep: nat, force: bool) returns (chunks: nat, refusal: Option<Reason>)
      requires w.checkpointer && |messages| > keep
      modifies archive
      ensures archive.rows == old(archive.rows) + Archiving(messages, w, keep).rows
      ensures chunks == if Archives(messages, w, keep) then |Archiving(messages, w, keep).rows| else 0
      ensures refusal.Some? <==> !force && !Archives(messages, w, keep)
      ensures refusal.Some? ==>
                match refusal.value
                case NoStore => !w.store
                case EmptyTranscript => w.store && Strip(Transcript(messages, w.clean)) == ""
                case ArchiveError => Archiving(messages, w, keep).raised
                case EmptyArchive => Writes(messages, w, keep) && Archiving(messages, w, keep) == Ingest([], false)
                case _ => false
    {
      chunks := 0;
      if !w.store && !force {
        return 0, Some(NoStore);
      }
      var transcript := RenderTranscript(messages, w.clean);
      if Strip(transcript) == "" && !force {
        return 0, Some(EmptyTranscript);
      }
      if w.store && Strip(transcript) != "" {
        var written := Archive(transcript, w);
        if written.Some? {
          chunks := written.value;
        } else if !force {
          return 0, Some(ArchiveError);
        }
      }
      refusal := if chunks == 0 && !force then Some(EmptyArchive) else None;
    }

    /** Either the live history is untouched, or it is a summary and a safe tail of it; and unless
        forced, the latter exactly when some piece of the transcript was archived, none raised, and
        there is a summary to show. One message is spent on the summary, so a rewrite shortens the
        thread only from a cut of two. */
    method Compact(w: World, keepRecent: Option<int>, configured: int, force: bool) returns (report: Report)
      modifies this, archive
      ensures report.reason.Done? ==>
                |old(messages)| > Keep(keepRecent, configured) && report.removed <= |old(messages)| &&
                IsCut(old(messages), Keep(keepRecent, configured), report.removed) &&
                messages != [] && messages[0].Human? && messages[1..] == old(messages)[report.removed..]
      ensures report.reason.Done? ==>
                && (if report.archived then w.archived else w.lost).lead <= messages[0].content
                && (w.summary.Text? && w.summary.s != "" ==> EndsIn(messages[0].content, w.summary.s))
                && (w.summary.SummaryRaised? || w.summary.s == "" ==>
                      force && EndsIn(messages[0].content, (if report.archived then w.archived else w.lost).stub))
      ensures report.reason.Done? ==>
                report.kept + report.removed == |old(messages)| &&
                (|messages| < |old(messages)| <==> report.removed >= 2) &&
                (|messages| > |old(messages)| <==> report.removed == 0)
      ensures !report.reason.Done? ==> messages == old(messages) && report.removed == 0 &&
                                       (report.reason.NoCheckpointer? || report.kept == |old(messages)|)
      ensures report.refused <==> !report.reason.Done? && !report.reason.TooShort?
      ensures match report.reason
              case Done => true
              case NoCheckpointer => !w.checkpointer
              case TooShort => w.checkpointer && |old(messages)| <= Keep(keepRecent, configured)
              case NoStore => !force && !w.store
              case EmptyTranscript => !force && w.store && Strip(Transcript(old(messages), w.clean)) == ""
              case ArchiveError => !force && Archiving(old(messages), w, Keep(keepRecent, configured)).raised
              case EmptyArchive =>
                !force && Writes(old(messages), w, Keep(keepRecent, configured))
                && Archiving(old(messages), w, Keep(keepRecent, configured)) == Ingest([], false)
              case SummaryError => !force && report.archived && w.summary.SummaryRaised?
              case NoSummary => !force && report.archived && w.summary == Text("")
      ensures report.archived <==> report.chunks > 0
      ensures report.archived <==> Archives(old(messages), w, Keep(keepRecent, configured))
      ensures archive.rows == old(archive.rows) + Archiving(old(messages), w, Keep(keepRecent, configured)).rows
      ensures report.archived ==> report.chunks == |Archiving(old(messages), w, Keep(keepRecent, configured)).rows|
      ensures !force ==> (report.reason.Done? <==> Rewrites(old(messages), w, Keep(keepRecent, configured)))
      ensures force && w.checkpointer && |old(messages)| > Keep(keepRecent, configured) ==> report.reason.Done?
    {
      if !w.checkpointer {
        return Refusal(NoCheckpointer, 0, 0);
      }
      var n, keep := |messages|, Keep(keepRecent, configured);
      if n <= keep {
        return Refusal(TooShort, n, 0);
      }
      var chunks, refusal := ArchiveHistory(w, keep, force);
      if refusal.Some? {
        return Refusal(refusal.value, n, 0);
      }
      report := Rewrite(w, keep, force, chunks);
      if report.reason.Done? {
        var wording := if chunks > 0 then w.archived else w.lost;
        LeadThenText(wording.lead, if HasText(w.summary) then w.summary.s else wording.stub);
      }
    }

    /** With the archive as it is, rewrites the thread if there is a summary, or in any case if forced. */
    method Rewrite(w: World, keep: nat, force: bool, chunks: nat) returns (report: Report)
      requires |messages| > keep
      modifies this`messages
      ensures report.reason.Done? <==> force || HasText(w.summary)
      ensures report.chunks == chunks && (report.archived <==> chunks > 0)
      ensures report.refused <==> !report.reason.Done?
      ensures match report.reason
              case Done => true
              case SummaryError => !force && w.summary.SummaryRaised?
              case NoSummary => !force && w.summary == Text("")
              case _ => false
      ensures var wording := if chunks > 0 then w.archived else w.lost;
              if report.reason.Done?
              then && report.removed <= |old(messages)| && IsCut(old(messages), keep, report.removed)
                   && messages == [Human(wording.lead
                                         + if w.summary.Text? && w.summary.s != "" then w.summary.s else wording.stub)]
                                  + old(messages)[report.removed..]
                   && report.kept + report.removed == |old(messages)|
              else messages == old(messages) && report.removed == 0 && report.kept == |old(messages)|
    {
      var n, summary, wording := |messages|, "", if chunks > 0 then w.archived else w.lost;
      if w.summary.Text? {
        summary := w.summary.s;
      } else if !force {
        return Refusal(SummaryError, n, chunks);
      }
      if summary == "" {
        if !force {
          return Refusal(NoSummary, n, chunks);
        }
        summary := wording.stub;
      }
      var cut := SafeCutIndex(messages, keep);
      var tail := messages[cut..];
      messages := [Human(wording.lead + summary)] + tail;
      report := Report(Done, chunks, |tail|, cut, chunks > 0, false);
    }
  }

  function Keep(keepRecent: Option<int>, configured: int): nat {
    var k := if keepRecent.Some? then keepRecent.value else configured;
    if k < 0 then 0 else k
  }

  /** The caller's number, or the configured one if there is none; never less than zero. */
  lemma WhatIsKept(keepRecent: Option<int>, configured: int)
    ensures Keep(keepRecent, configured) >= 0
    ensures keepRecent.Some? && keepRecent.value >= 0 ==> Keep(keepRecent, configured) == keepRecent.value
    ensures keepRecent.None? && configured >= 0 ==> Keep(keepRecent, configured) == configured
    ensures keepRecent.Some? && keepRecent.value < 0 ==> Keep(keepRecent, configured) == 0
  {
  }

  lemma SummaryAheadIsWellFormed(summary: string, tail: seq<Msg>)
    requires WellFormed(tail)
    ensures WellFormed([Human(summary)] + tail)
  {
    var r := [Human(summary)] + tail;
    assert r[1..] == tail;
    forall i | 0 <= i < |r| && r[i].ToolResult?
      ensures CallerOf(r, i).Some? && CallerOf(r, i).value < i && Answers(r, i, CallerOf(r, i).value)
    {
      CallerInTail(r, 1, i);
      assert CallerOf(tail, i - 1).Some? && tail[i - 1] == r[i];
      CallerPrecedes(r, i);
      assert r[CallerOf(r, i).value] == tail[CallerOf(r, i).value - 1];
    }
  }

  /** A rewrite of a well-formed thread is well-formed. */
  lemma RewriteIsWellFormed(h: seq<Msg>, keep: nat, cut: nat, summary: string)
    requires WellFormed(h) && |h| > keep && cut <= |h| && IsCut(h, keep, cut)
    ensures WellFormed([Human(summary)] + h[cut..])
  {
    if keep > 0 { CutIsTheLargestSafeOne(h, keep, cut); } else { TailIsWellFormed(h, cut); }
    SummaryAheadIsWellFormed(summary, h[cut..]);
  }

  /** A well-formed thread longer than asked for can still have nothing to cut: its one exchange
      starts it. */
  lemma NothingToCut(call: string, out: string)
    requires call != ""
    ensures var h := [Assistant([call], ""), ToolResult(call, out), ToolResult(call, out)];
            WellFormed(h) && IsCut(h, 1, 0)
  {
  }
}
