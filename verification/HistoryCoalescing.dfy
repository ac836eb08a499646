/** Durable task history: each contiguous run of reasoning messages is collapsed to one message,
    again after every save of the same growing task. */
module HistoryCoalescing {
  import opened Sequences
  import opened Wrappers

  /** A reasoning part carries text and whatever else its producer attached; other parts are opaque. */
  datatype Part = Reasoning(text: string, extra: nat) | Other(content: nat)

  datatype Message = Message(agent: bool, parts: seq<Part>, meta: nat)

  /** The texts of an agent message that is reasoning and nothing else. */
  function TextsOf(m: Message): Option<seq<string>> {
    if m.agent && m.parts != [] && forall i :: 0 <= i < |m.parts| ==> m.parts[i].Reasoning?
    then Some(seq(|m.parts|, i requires 0 <= i < |m.parts| => m.parts[i].text))
    else None
  }

  predicate IsReasoning(m: Message) {
    TextsOf(m).Some?
  }

  function Concat(texts: seq<string>): string {
    if texts == [] then "" else Concat(texts[..|texts| - 1]) + texts[|texts| - 1]
  }

  function TextOf(m: Message): string
    requires IsReasoning(m)
  {
    Concat(TextsOf(m).value)
  }

  /** The head of a run, rewritten to one plain reasoning part. */
  function WithText(head: Message, text: string): Message {
    head.(parts := [Reasoning(text, 0)])
  }

  function Canon(m: Message): Message {
    if IsReasoning(m) then WithText(m, TextOf(m)) else m
  }

  /** A history up to joining the parts of each reasoning message. */
  function Norm(h: seq<Message>): seq<Message> {
    seq(|h|, i requires 0 <= i < |h| => Canon(h[i]))
  }

  lemma CanonReads(m: Message, text: string)
    requires m.agent
    ensures IsReasoning(WithText(m, text)) && TextOf(WithText(m, text)) == text
    ensures Canon(WithText(m, text)) == WithText(m, text)
  {
    assert WithText(m, text).parts == [Reasoning(text, 0)];
    assert TextsOf(WithText(m, text)).value == [text];
    assert Concat([text]) == Concat([]) + text by { assert [text][..0] == []; }
  }

  lemma CanonSettles(m: Message)
    ensures Canon(Canon(m)) == Canon(m) && (IsReasoning(Canon(m)) <==> IsReasoning(m))
    ensures IsReasoning(m) ==> TextOf(Canon(m)) == TextOf(m)
  {
    if IsReasoning(m) { CanonReads(m, TextOf(m)); }
  }

  lemma {:induction false} ConcatJoin(a: seq<string>, b: seq<string>)
    ensures Concat(a + b) == Concat(a) + Concat(b)
  {
    if b == [] {
      assert a + b == a;
    } else {
      var n := |b| - 1;
      assert (a + b)[..|a + b| - 1] == a + b[..n];
      ConcatJoin(a, b[..n]);
      assert Concat(a) + (Concat(b[..n]) + b[n]) == (Concat(a) + Concat(b[..n])) + b[n];
    }
  }

  // ---- The reference: one message at a time ------------------------------------------------

  /** A reasoning message joins a reasoning message right before it; anything else is appended. */
  function Joined(merged: seq<Message>, m: Message): seq<Message> {
    var n := |merged| - 1;
    if IsReasoning(m) && n >= 0 && IsReasoning(merged[n])
    then merged[..n] + [WithText(merged[n], TextOf(merged[n]) + TextOf(m))]
    else merged + [Canon(m)]
  }

  function JoinedAll(merged: seq<Message>, h: seq<Message>): seq<Message> {
    if h == [] then merged else Joined(JoinedAll(merged, h[..|h| - 1]), h[|h| - 1])
  }

  function Merged(h: seq<Message>): seq<Message> {
    JoinedAll([], h)
  }

  /** The history a coalescing leaves: the rewrite is skipped when it would remove nothing. */
  function Coalesced(h: seq<Message>): seq<Message> {
    if |Merged(h)| == |h| then h else Merged(h)
  }

  /** The messages so far with the open run, if any, closed behind them. */
  function Closed(merged: seq<Message>, runHead: Option<Message>, runTexts: seq<string>): seq<Message> {
    if runHead.None? then merged else merged + [WithText(runHead.value, Concat(runTexts))]
  }

  /** A run is open behind a message that is no reasoning, if any; its head is the agent's. */
  predicate OpenRun(merged: seq<Message>, runHead: Option<Message>) {
    (runHead.Some? ==> runHead.value.agent) && (merged != [] ==> !IsReasoning(merged[|merged| - 1]))
  }

  /** One more message closes the run, opens one or extends it. */
  method AddMessage(merged: seq<Message>, runHead: Option<Message>, runTexts: seq<string>, m: Message)
    returns (merged': seq<Message>, runHead': Option<Message>, runTexts': seq<string>)
    requires OpenRun(merged, runHead)
    ensures OpenRun(merged', runHead')
    ensures Closed(merged', runHead', runTexts') == Joined(Closed(merged, runHead, runTexts), m)
  {
    OneMoreMessage(merged, runHead, runTexts, m);
    var texts := TextsOf(m);
    if texts.None? {
      return Closed(merged, runHead, runTexts) + [m], None, [];
    }
    merged', runHead', runTexts' := merged, runHead, runTexts;
    if runHead.None? {
      runHead', runTexts' := Some(m), [];
    }
    runTexts' := runTexts' + texts.value;
  }

  class Task {
    var history: seq<Message>

    constructor (h: seq<Message>)
      ensures history == h
    {
      history := h;
    }

    method CoalesceReasoningHistory() returns (removed: int)
      modifies this
      ensures history == Coalesced(old(history))
      ensures removed == |old(history)| - |history|
    {
      var merged: seq<Message>, runHead: Option<Message>, runTexts: seq<string> := [], None, [];
      for i := 0 to |history|
        invariant history == old(history)
        invariant OpenRun(merged, runHead)
        invariant Closed(merged, runHead, runTexts) == Merged(history[..i])
      {
        assert history[..i + 1][..i] == history[..i];
        merged, runHead, runTexts := AddMessage(merged, runHead, runTexts, history[i]);
      }
      merged := Closed(merged, runHead, runTexts);
      assert history[..|history|] == history;
      removed := |history| - |merged|;
      if removed != 0 {
        history := merged;
      }
    }
  }

  /** One more message does to the closed history what the reference does. */
  lemma OneMoreMessage(merged: seq<Message>, runHead: Option<Message>, runTexts: seq<string>, m: Message)
    requires OpenRun(merged, runHead)
    ensures var texts := TextsOf(m);
            Joined(Closed(merged, runHead, runTexts), m) ==
            if texts.None? then Closed(merged, runHead, runTexts) + [m]
            else if runHead.None? then Closed(merged, Some(m), [] + texts.value)
            else Closed(merged, runHead, runTexts + texts.value)
  {
    var texts := TextsOf(m);
    if texts.Some? {
      assert [] + texts.value == texts.value;
      if runHead.Some? {
        ConcatJoin(runTexts, texts.value);
        CanonReads(runHead.value, Concat(runTexts));
      }
    }
  }

  // ---- Incremental agrees with batch ----------------------------------------------------------

  lemma {:induction false} JoinedAllSplits(merged: seq<Message>, h: seq<Message>, d: seq<Message>)
    ensures JoinedAll(merged, h + d) == JoinedAll(JoinedAll(merged, h), d)
  {
    if d == [] {
      assert h + d == h;
    } else {
      assert (h + d)[..|h + d| - 1] == h + d[..|d| - 1];
      JoinedAllSplits(merged, h, d[..|d| - 1]);
    }
  }

  predicate Settled(h: seq<Message>) {
    && (forall i :: 0 <= i < |h| ==> Canon(h[i]) == h[i])
    && NoRuns(h)
  }

  /** The merged history holds no two adjacent reasoning messages, each in canonical form. */
  lemma {:induction false} MergedIsSettled(h: seq<Message>)
    ensures Settled(Merged(h))
  {
    if h != [] {
      MergedIsSettled(h[..|h| - 1]);
      JoinedStaysSettled(Merged(h[..|h| - 1]), h[|h| - 1]);
    }
  }

  lemma JoinedStaysSettled(merged: seq<Message>, m: Message)
    requires Settled(merged)
    ensures Settled(Joined(merged, m))
  {
    var n := |merged| - 1;
    CanonSettles(m);
    if IsReasoning(m) && n >= 0 && IsReasoning(merged[n]) {
      CanonReads(merged[n], TextOf(merged[n]) + TextOf(m));
    }
  }

  lemma {:induction false} SettledStays(h: seq<Message>)
    requires Settled(h)
    ensures Merged(h) == h
  {
    if h != [] { SettledStays(h[..|h| - 1]); }
  }

  /** The last message continues a run. */
  predicate Continues(h: seq<Message>)
    requires h != []
  {
    |h| > 1 && IsReasoning(h[|h| - 2]) && IsReasoning(h[|h| - 1])
  }

  lemma MergedStep(h: seq<Message>)
    requires h != []
    ensures var n := |h| - 1;
            var before := Merged(h[..n]);
            if Continues(h) then
              before != [] && IsReasoning(before[|before| - 1]) &&
              Merged(h) == before[..|before| - 1] +
                           [WithText(before[|before| - 1], TextOf(before[|before| - 1]) + TextOf(h[n]))]
            else Merged(h) == before + [Canon(h[n])]
  {
  }

  predicate NoRuns(h: seq<Message>) {
    forall i :: 0 < i < |h| ==> !IsReasoning(h[i - 1]) || !IsReasoning(h[i])
  }

  lemma NoRunsStep(h: seq<Message>)
    requires h != []
    ensures NoRuns(h) <==> NoRuns(h[..|h| - 1]) && !Continues(h)
  {
  }

  /** No message is removed exactly when no two reasoning messages are adjacent. */
  lemma {:induction false} NothingToRemove(h: seq<Message>)
    ensures |Merged(h)| <= |h| && (|Merged(h)| == |h| <==> NoRuns(h))
  {
    if h != [] {
      NothingToRemove(h[..|h| - 1]);
      MergedStep(h);
      NoRunsStep(h);
    }
  }

  lemma NormGrows(h: seq<Message>, m: Message)
    ensures Norm(h + [m]) == Norm(h) + [Canon(m)]
  {
  }

  lemma {:induction false} WithoutRunsMergedIsNorm(h: seq<Message>)
    requires NoRuns(h)
    ensures Merged(h) == Norm(h)
  {
    if h != [] {
      var n := |h| - 1;
      NoRunsStep(h);
      WithoutRunsMergedIsNorm(h[..n]);
      MergedStep(h);
      NormGrows(h[..n], h[n]);
      assert h == h[..n] + [h[n]];
    }
  }

  /** What is stored and what the reference computes are the same history, short-cut or not. */
  lemma StoredIsMerged(h: seq<Message>)
    ensures Norm(Coalesced(h)) == Merged(h) && Merged(Coalesced(h)) == Merged(h)
    ensures NoRuns(Coalesced(h))
  {
    NothingToRemove(h);
    MergedIsSettled(h);
    SettledStays(Merged(h));
    if NoRuns(h) { WithoutRunsMergedIsNorm(h); }
  }

  /** Coalescing, appending and coalescing again is coalescing the whole history once. */
  lemma IncrementalAgreesWithBatch(h: seq<Message>, d: seq<Message>)
    ensures Norm(Coalesced(Coalesced(h) + d)) == Norm(Coalesced(h + d))
  {
    StoredIsMerged(h);
    StoredIsMerged(h + d);
    StoredIsMerged(Coalesced(h) + d);
    JoinedAllSplits([], h, d);
    JoinedAllSplits([], Coalesced(h), d);
  }

  /** One save: the messages that arrived since the last one, and whether coalescing raised, in
      which case the task is saved as it stands. */
  datatype Save = Save(arrived: seq<Message>, raised: bool)

  function Saved(saves: seq<Save>): seq<Message> {
    if saves == [] then [] else
    var last := saves[|saves| - 1];
    var h := Saved(saves[..|saves| - 1]) + last.arrived;
    if last.raised then h else Coalesced(h)
  }

  function Arrived(saves: seq<Save>): seq<Message> {
    if saves == [] then [] else Arrived(saves[..|saves| - 1]) + saves[|saves| - 1].arrived
  }

  /** Over any sequence of saves of one growing task, failed coalescings included, the stored
      history is the whole history coalesced once. */
  lemma {:induction false} SavesCoalesceTheWholeHistory(saves: seq<Save>)
    ensures Merged(Saved(saves)) == Merged(Arrived(saves))
    ensures saves == [] || !saves[|saves| - 1].raised ==> Norm(Saved(saves)) == Norm(Coalesced(Arrived(saves)))
  {
    if saves != [] {
      var n := |saves| - 1;
      SavesCoalesceTheWholeHistory(saves[..n]);
      var d := saves[n].arrived;
      JoinedAllSplits([], Saved(saves[..n]), d);
      JoinedAllSplits([], Arrived(saves[..n]), d);
      StoredIsMerged(Saved(saves[..n]) + d);
      StoredIsMerged(Arrived(saves));
    }
  }

  // ---- What a coalescing keeps ------------------------------------------------------------------

  datatype Item = Ch(c: char) | Whole(m: Message)

  function Chars(text: string): seq<Item> {
    seq(|text|, i requires 0 <= i < |text| => Ch(text[i]))
  }

  function ItemsOf(m: Message): seq<Item> {
    if IsReasoning(m) then Chars(TextOf(m)) else [Whole(m)]
  }

  /** A history read as reasoning characters between whole other messages. */
  function Reading(h: seq<Message>): seq<Item> {
    if h == [] then [] else Reading(h[..|h| - 1]) + ItemsOf(h[|h| - 1])
  }

  lemma ReadingGrows(h: seq<Message>, m: Message)
    ensures Reading(h + [m]) == Reading(h) + ItemsOf(m)
  {
  }

  lemma CharsJoin(a: string, b: string)
    ensures Chars(a + b) == Chars(a) + Chars(b)
  {
  }

  lemma JoinedItems(head: Message, m: Message)
    requires IsReasoning(head) && IsReasoning(m)
    ensures ItemsOf(WithText(head, TextOf(head) + TextOf(m))) == ItemsOf(head) + ItemsOf(m)
  {
    CanonReads(head, TextOf(head) + TextOf(m));
    CharsJoin(TextOf(head), TextOf(m));
  }

  lemma JoinedReads(merged: seq<Message>, m: Message)
    ensures Reading(Joined(merged, m)) == Reading(merged) + ItemsOf(m)
  {
    var n := |merged| - 1;
    if IsReasoning(m) && n >= 0 && IsReasoning(merged[n]) {
      var init, head := merged[..n], merged[n];
      var joined := WithText(head, TextOf(head) + TextOf(m));
      calc {
        Reading(init + [joined]);
        { ReadingGrows(init, joined); JoinedItems(head, m); }
        Reading(init) + (ItemsOf(head) + ItemsOf(m));
        { Regroup(Reading(init), ItemsOf(head), ItemsOf(m)); }
        (Reading(init) + ItemsOf(head)) + ItemsOf(m);
      }
    } else {
      CanonItems(m);
      ReadingGrows(merged, Canon(m));
    }
  }

  lemma CanonItems(m: Message)
    ensures ItemsOf(Canon(m)) == ItemsOf(m)
  {
    CanonSettles(m);
  }

  lemma {:induction false} MergedReads(h: seq<Message>)
    ensures Reading(Merged(h)) == Reading(h)
  {
    if h != [] {
      MergedReads(h[..|h| - 1]);
      JoinedReads(Merged(h[..|h| - 1]), h[|h| - 1]);
    }
  }

  /** Every other message, in its place among them, and every character of reasoning survive. */
  lemma NothingIsLost(h: seq<Message>)
    ensures Reading(Coalesced(h)) == Reading(h)
  {
    MergedReads(h);
  }

  /** A message that is not the agent's, or has a part that is no reasoning, or has no part at all,
      is left exactly as it was. */
  lemma UntouchedMessagesStay(h: seq<Message>, i: nat)
    requires i < |h| && (!h[i].agent || h[i].parts == [] || exists k :: 0 <= k < |h[i].parts| && h[i].parts[k].Other?)
    ensures h[i] in Coalesced(h) && Reading([h[i]]) == [Whole(h[i])]
  {
    NothingIsLost(h);
    WholeIsRead(h, i);
    WholeWasThere(Coalesced(h), h[i]);
    assert [h[i]][..0] == [] && Reading([h[i]]) == [] + ItemsOf(h[i]);
  }

  lemma {:induction false} WholeIsRead(h: seq<Message>, i: nat)
    requires i < |h| && !IsReasoning(h[i])
    ensures Whole(h[i]) in Reading(h)
  {
    var n := |h| - 1;
    if i < n { WholeIsRead(h[..n], i); }
  }

  lemma {:induction false} WholeWasThere(h: seq<Message>, m: Message)
    requires Whole(m) in Reading(h)
    ensures m in h
  {
    var n := |h| - 1;
    if Whole(m) in Reading(h[..n]) { WholeWasThere(h[..n], m); } else { assert m == h[n]; }
  }

  /** The identity of each message that opens a run or is no reasoning at all. */
  function Heads(h: seq<Message>): seq<(bool, nat)> {
    if h == [] then [] else
    var n := |h| - 1;
    Heads(h[..n]) + if Continues(h) then [] else [(h[n].agent, h[n].meta)]
  }

  function Identities(h: seq<Message>): seq<(bool, nat)> {
    seq(|h|, i requires 0 <= i < |h| => (h[i].agent, h[i].meta))
  }

  /** Each run keeps its first message's identity, and no other message loses its own: one message
      is left per head, so the count a coalescing returns is the number that continue a run. */
  lemma {:induction false} RunsKeepTheirHeads(h: seq<Message>)
    ensures Identities(Merged(h)) == Heads(h)
  {
    if h != [] {
      RunsKeepTheirHeads(h[..|h| - 1]);
      MergedStep(h);
    }
  }
}
