/** The counters of a turn, and what they amount to at its end. */
module TurnCounters {
  import opened Wrappers
  import opened TurnLog

  // ---- What the counters should say, read off the whole event log -----------------------------

  datatype Totals = Totals(input: int, output: int, cacheRead: int, cacheCreation: int, cost: real, calls: nat)

  /** The sum over every usage report of the turn, delegated calls included. */
  function Spend(es: seq<Event>): Totals {
    if es == [] then Totals(0, 0, 0, 0, 0.0, 0) else
    var t, e := Spend(es[..|es| - 1]), es[|es| - 1];
    if e.UsageReport? && e.usage.Some? then
      var u := e.usage.value;
      Totals(t.input + u.input, t.output + u.output, t.cacheRead + u.cacheRead,
             t.cacheCreation + u.cacheCreation, t.cost + u.cost, t.calls + 1)
    else t
  }

  /** A usage report of the lead thread itself, not of a delegation. */
  ghost predicate LeadReport(e: Event) {
    e.UsageReport? && e.usage.Some? && !e.usage.value.delegated
  }

  /** The largest prompt of any lead call; zero when there was none. */
  ghost predicate IsLeadPeak(es: seq<Event>, peak: nat) {
    && (forall i :: 0 <= i < |es| && LeadReport(es[i]) ==> es[i].usage.value.input <= peak)
    && (peak == 0 || exists i :: 0 <= i < |es| && LeadReport(es[i]) && es[i].usage.value.input == peak)
  }

  /** Input and output of the final lead call. */
  ghost predicate IsLastLead(es: seq<Event>, input: int, output: int) {
    if exists i :: 0 <= i < |es| && LeadReport(es[i]) then
      exists i :: 0 <= i < |es| && LeadReport(es[i])
        && es[i].usage.value.input == input && es[i].usage.value.output == output
        && (forall k :: i < k < |es| ==> !LeadReport(es[k]))
    else input == 0 && output == 0
  }

  ghost predicate StartsCall(e: Event, id: string) {
    e.ToolStart? && e.tool.Structured? && e.tool.id == Some(id)
  }

  /** Tool starts that carry no call id. */
  function AnonymousStarts(es: seq<Event>): nat {
    if es == [] then 0 else
    var e := es[|es| - 1];
    AnonymousStarts(es[..|es| - 1])
    + if e.ToolStart? && (e.tool.Plain? || e.tool.id.None?) then 1 else 0
  }

  /** Exactly the call ids that some tool start of the turn carries. */
  ghost predicate AreCallIds(es: seq<Event>, ids: set<string>) {
    forall id :: id in ids <==> exists i :: 0 <= i < |es| && StartsCall(es[i], id)
  }

  ghost predicate ReportsModel(e: Event, model: string) {
    e.UsageReport? && e.usage.Some? && e.usage.value.model == model && model != ""
  }

  /** The distinct model names the reports carry. */
  ghost predicate AreModels(es: seq<Event>, models: seq<string>) {
    && (forall i, j :: 0 <= i < j < |models| ==> models[i] != models[j])
    && (forall m :: m in models <==> exists i :: 0 <= i < |es| && ReportsModel(es[i], m))
  }

  // ---- The counters, event by event ----------------------------------------------------------------

  datatype Counters = Counters(
    spend: Totals, contextTokens: nat, lastInput: int, lastOutput: int,
    toolCalls: nat, counted: set<string>, models: seq<string>)

  const NO_COUNTS := Counters(Totals(0, 0, 0, 0, 0.0, 0), 0, 0, 0, 0, {}, [])

  function CallId(tool: ToolPayload): Option<string> {
    if tool.Structured? then tool.id else None
  }

  /** A tool start counts once per call id, and once each time it carries none. */
  function CountStart(c: Counters, tool: ToolPayload): Counters {
    var id := CallId(tool);
    if id.None? then c.(toolCalls := c.toolCalls + 1)
    else if id.value in c.counted then c
    else c.(toolCalls := c.toolCalls + 1, counted := c.counted + {id.value})
  }

  /** Every report adds to the spend; only a lead report moves the context readings. */
  function CountUsage(c: Counters, u: Usage): Counters {
    Counters(
      Totals(c.spend.input + u.input, c.spend.output + u.output, c.spend.cacheRead + u.cacheRead,
             c.spend.cacheCreation + u.cacheCreation, c.spend.cost + u.cost, c.spend.calls + 1),
      if !u.delegated && u.input > c.contextTokens then u.input else c.contextTokens,
      if u.delegated then c.lastInput else u.input,
      if u.delegated then c.lastOutput else u.output,
      c.toolCalls, c.counted,
      if u.model != "" && u.model !in c.models then c.models + [u.model] else c.models)
  }

  function Count(c: Counters, e: Event): Counters {
    match e
    case ToolStart(tool) => CountStart(c, tool)
    case UsageReport(Some(u)) => CountUsage(c, u)
    case _ => c
  }

  function CountAll(es: seq<Event>): Counters {
    if es == [] then NO_COUNTS else Count(CountAll(es[..|es| - 1]), es[|es| - 1])
  }

  lemma PeakSnoc(es: seq<Event>, e: Event, peak: nat)
    requires IsLeadPeak(es, peak)
    ensures IsLeadPeak(es + [e], if LeadReport(e) && e.usage.value.input > peak then e.usage.value.input else peak)
  {
    var more := es + [e];
    assert more[|es|] == e;
    if peak != 0 {
      var i :| 0 <= i < |es| && LeadReport(es[i]) && es[i].usage.value.input == peak;
      assert more[i] == es[i];
    }
  }

  lemma LastLeadSnoc(es: seq<Event>, e: Event, input: int, output: int)
    requires IsLastLead(es, input, output)
    ensures if LeadReport(e) then IsLastLead(es + [e], e.usage.value.input, e.usage.value.output)
            else IsLastLead(es + [e], input, output)
  {
    var more := es + [e];
    assert more[|es|] == e;
    if LeadReport(e) {
      assert LeadReport(more[|es|]);
    } else if i :| 0 <= i < |es| && LeadReport(es[i]) {
      assert LeadReport(more[i]);
      var k :| 0 <= k < |es| && LeadReport(es[k]) && es[k].usage.value.input == input
               && es[k].usage.value.output == output && (forall m :: k < m < |es| ==> !LeadReport(es[m]));
      assert LeadReport(more[k]) && forall m :: k < m < |more| ==> !LeadReport(more[m]);
    } else {
      assert forall i :: 0 <= i < |more| ==> !LeadReport(more[i]);
    }
  }

  lemma CallIdsSnoc(es: seq<Event>, e: Event, ids: set<string>)
    requires AreCallIds(es, ids)
    ensures AreCallIds(es + [e], if e.ToolStart? && e.tool.Structured? && e.tool.id.Some?
                                 then ids + {e.tool.id.value} else ids)
  {
    var more := es + [e];
    assert more[|es|] == e;
    forall id ensures (exists i :: 0 <= i < |more| && StartsCall(more[i], id))
                      <==> (exists i :: 0 <= i < |es| && StartsCall(es[i], id)) || StartsCall(e, id)
    {
      if i :| 0 <= i < |es| && StartsCall(es[i], id) { assert more[i] == es[i]; }
    }
  }

  lemma ModelsSnoc(es: seq<Event>, e: Event, models: seq<string>)
    requires AreModels(es, models)
    ensures AreModels(es + [e], if e.UsageReport? && e.usage.Some? && e.usage.value.model != ""
                                   && e.usage.value.model !in models
                                then models + [e.usage.value.model] else models)
  {
    var more := es + [e];
    assert more[|es|] == e;
    forall m ensures (exists i :: 0 <= i < |more| && ReportsModel(more[i], m))
                     <==> (exists i :: 0 <= i < |es| && ReportsModel(es[i], m)) || ReportsModel(e, m)
    {
      if i :| 0 <= i < |es| && ReportsModel(es[i], m) { assert more[i] == es[i]; }
    }
  }

  lemma CountAllSnoc(es: seq<Event>)
    requires es != []
    ensures var before, e := es[..|es| - 1], es[|es| - 1];
            es == before + [e] && CountAll(es) == Count(CountAll(before), e)
  {
  }

  lemma {:induction false} SpendIsTheSum(es: seq<Event>)
    ensures CountAll(es).spend == Spend(es)
  {
    if es != [] { SpendIsTheSum(es[..|es| - 1]); }
  }

  lemma {:induction false} ContextIsThePeak(es: seq<Event>)
    ensures IsLeadPeak(es, CountAll(es).contextTokens)
  {
    if es != [] {
      var before, e := es[..|es| - 1], es[|es| - 1];
      ContextIsThePeak(before);
      CountAllSnoc(es);
      PeakSnoc(before, e, CountAll(before).contextTokens);
    }
  }

  lemma {:induction false} ProjectionIsTheLastLead(es: seq<Event>)
    ensures IsLastLead(es, CountAll(es).lastInput, CountAll(es).lastOutput)
  {
    if es != [] {
      var before, e := es[..|es| - 1], es[|es| - 1];
      ProjectionIsTheLastLead(before);
      CountAllSnoc(es);
      LastLeadSnoc(before, e, CountAll(before).lastInput, CountAll(before).lastOutput);
    }
  }

  lemma {:induction false} CallsAreDistinctIds(es: seq<Event>)
    ensures AreCallIds(es, CountAll(es).counted)
    ensures CountAll(es).toolCalls == |CountAll(es).counted| + AnonymousStarts(es)
  {
    if es != [] {
      var before, e := es[..|es| - 1], es[|es| - 1];
      var ids := CountAll(before).counted;
      CallsAreDistinctIds(before);
      CountAllSnoc(es);
      CallIdsSnoc(before, e, ids);
      if e.ToolStart? && CallId(e.tool).Some? && CallId(e.tool).value in ids {
        assert ids + {CallId(e.tool).value} == ids;
      }
    }
  }

  lemma {:induction false} ModelsAreDistinct(es: seq<Event>)
    ensures AreModels(es, CountAll(es).models)
  {
    if es != [] {
      var before, e := es[..|es| - 1], es[|es| - 1];
      ModelsAreDistinct(before);
      CountAllSnoc(es);
      ModelsSnoc(before, e, CountAll(before).models);
    }
  }

  /** At the end of any event log, the totals are the sums over all usage reports, the context
      reading is the largest lead prompt, the projection comes from the last lead call, the
      models are the distinct names reported, and tool calls are the distinct call ids plus the
      starts that carry none. */
  lemma CountersAddUp(es: seq<Event>)
    ensures var c := CountAll(es);
            && c.spend == Spend(es)
            && IsLeadPeak(es, c.contextTokens)
            && IsLastLead(es, c.lastInput, c.lastOutput)
            && AreCallIds(es, c.counted)
            && c.toolCalls == |c.counted| + AnonymousStarts(es)
            && AreModels(es, c.models)
  {
    SpendIsTheSum(es);
    ContextIsThePeak(es);
    ProjectionIsTheLastLead(es);
    CallsAreDistinctIds(es);
    ModelsAreDistinct(es);
  }
}
