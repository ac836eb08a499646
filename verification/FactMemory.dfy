/** Consolidating a batch of extracted facts into the valid facts of a namespace, or of all when it
    has none: near-duplicates are skipped, revisions supersede, and no row is ever deleted or edited. */
module FactMemory {
  import opened Wrappers

  // ---- Similarity --------------------------------------------------------------------------

  predicate IsWordChar(c: char) {
    'a' <= c <= 'z' || '0' <= c <= '9' || c == '_' || c == '\''
  }

  function Lower(c: char): char {
    if 'A' <= c <= 'Z' then c - 'A' + 'a' else c
  }

  /** The words of a text so far, and the word it ends in. */
  function Scan(text: string): (set<string>, string) {
    if text == "" then ({}, "") else
    var (done, word) := Scan(text[..|text| - 1]);
    var c := Lower(text[|text| - 1]);
    if IsWordChar(c) then (done, word + [c])
    else (if word == "" then done else done + {word}, "")
  }

  function Tokens(text: string): set<string> {
    var (done, word) := Scan(text);
    if word == "" then done else done + {word}
  }

  function Jaccard(a: set<string>, b: set<string>): real {
    if a == {} || b == {} then 0.0 else (|a * b| as real) / (|a + b| as real)
  }

  const DEDUP := 0.85
  const SUPERSEDE := 0.6

  // ---- The store ---------------------------------------------------------------------------------

  /** A fact row; an invalidated one is kept for audit. */
  datatype Row = Row(namespace: Option<string>, content: string, valid: bool)

  /** A valid fact to compare with: its row and its words. */
  datatype Candidate = Candidate(id: nat, words: set<string>)

  datatype Counts = Counts(added: nat, skipped: nat, superseded: nat)

  datatype State = State(rows: seq<Row>, candidates: seq<Candidate>, counts: Counts)

  /** What the store does with one fact's calls. */
  datatype Answer = Answer(addSucceeds: bool, invalidates: bool)

  class FactStore {
    var rows: seq<Row>

    constructor ()
      ensures rows == []
    {
      rows := [];
    }

    method AddChunk(content: string, namespace: Option<string>, succeeds: bool) returns (rid: Option<nat>)
      modifies this
      ensures rows == if succeeds then old(rows) + [Row(namespace, content, true)] else old(rows)
      ensures rid == if succeeds then Some(|old(rows)|) else None
    {
      rid := None;
      if succeeds {
        rid := Some(|rows|);
        rows := rows + [Row(namespace, content, true)];
      }
    }

    method InvalidateChunk(id: nat, succeeds: bool) returns (done: bool)
      requires id < |rows|
      modifies this
      ensures rows == if succeeds then old(rows)[id := old(rows)[id].(valid := false)] else old(rows)
      ensures done == succeeds
    {
      done := succeeds;
      if succeeds {
        rows := rows[id := rows[id].(valid := false)];
      }
    }
  }

  // ---- The best match ----------------------------------------------------------------------------

  /** The greatest score, and the latest candidate that has it. */
  function Best(candidates: seq<Candidate>, words: set<string>): (best: Option<nat>)
    ensures best.None? <==> candidates == []
    ensures best.Some? ==> best.value < |candidates|
  {
    if candidates == [] then None else
    var n := |candidates| - 1;
    var b := Best(candidates[..n], words);
    if b.None? || Jaccard(words, candidates[n].words) >= Jaccard(words, candidates[b.value].words) then Some(n) else b
  }

  function BestScore(candidates: seq<Candidate>, words: set<string>): real {
    var b := Best(candidates, words);
    if b.Some? then Jaccard(words, candidates[b.value].words) else 0.0
  }

  lemma {:induction false} BestIsGreatest(candidates: seq<Candidate>, words: set<string>)
    ensures forall i :: 0 <= i < |candidates| ==>
              Jaccard(words, candidates[i].words) <= BestScore(candidates, words) &&
              (Jaccard(words, candidates[i].words) == BestScore(candidates, words) ==>
               i <= Best(candidates, words).value)
  {
    if candidates != [] {
      var n := |candidates| - 1;
      BestIsGreatest(candidates[..n], words);
      forall i | 0 <= i < n ensures candidates[..n][i] == candidates[i] {}
    }
  }

  // ---- Consolidation -----------------------------------------------------------------------------

  function WithoutAt<T>(s: seq<T>, i: nat): seq<T>
    requires i < |s|
  {
    s[..i] + s[i + 1..]
  }

  predicate InRange(st: State) {
    forall i :: 0 <= i < |st.candidates| ==> st.candidates[i].id < |st.rows|
  }

  /** A match in the supersede band is invalidated, if the store does that. */
  function Superseded(st: State, words: set<string>, answer: Answer): (r: State)
    requires InRange(st)
    ensures InRange(r) && |r.rows| == |st.rows|
  {
    var b := Best(st.candidates, words);
    if b.Some? && BestScore(st.candidates, words) >= SUPERSEDE && answer.invalidates then
      var id := st.candidates[b.value].id;
      State(st.rows[id := st.rows[id].(valid := false)], WithoutAt(st.candidates, b.value),
            st.counts.(superseded := st.counts.superseded + 1))
    else st
  }

  function Inserted(st: State, namespace: Option<string>, fact: string, answer: Answer): (r: State)
    requires InRange(st)
    ensures InRange(r)
  {
    if !answer.addSucceeds then st else
    State(st.rows + [Row(namespace, fact, true)], st.candidates + [Candidate(|st.rows|, Tokens(fact))],
          st.counts.(added := st.counts.added + 1))
  }

  function Consolidated(st: State, namespace: Option<string>, fact: string, answer: Answer): (r: State)
    requires InRange(st)
    ensures InRange(r)
  {
    if BestScore(st.candidates, Tokens(fact)) >= DEDUP
    then st.(counts := st.counts.(skipped := st.counts.skipped + 1))
    else Inserted(Superseded(st, Tokens(fact), answer), namespace, fact, answer)
  }

  function ConsolidatedAll(st: State, namespace: Option<string>, facts: seq<string>, answers: seq<Answer>): (r: State)
    requires InRange(st) && |answers| == |facts|
    ensures InRange(r)
  {
    if facts == [] then st else
    var n := |facts| - 1;
    Consolidated(ConsolidatedAll(st, namespace, facts[..n], answers[..n]), namespace, facts[n], answers[n])
  }

  /** The candidates of a listing; a failed listing gives none. */
  function Listed(rows: seq<Row>, listing: Option<seq<nat>>): (cs: seq<Candidate>)
    requires listing.Some? ==> forall i :: 0 <= i < |listing.value| ==> listing.value[i] < |rows|
    ensures forall i :: 0 <= i < |cs| ==> cs[i].id < |rows|
  {
    if listing.None? then []
    else seq(|listing.value|, i requires 0 <= i < |listing.value| =>
               Candidate(listing.value[i], Tokens(rows[listing.value[i]].content)))
  }

  /** The best match: the greatest score and, among equals, the latest candidate. */
  method FindBest(candidates: seq<Candidate>, words: set<string>) returns (best: real, at: Option<nat>)
    ensures at == Best(candidates, words) && best == BestScore(candidates, words)
  {
    best, at := 0.0, None;
    for i := 0 to |candidates|
      invariant at == Best(candidates[..i], words) && best == BestScore(candidates[..i], words)
    {
      assert candidates[..i + 1][..i] == candidates[..i];
      var score := Jaccard(words, candidates[i].words);
      if at.None? || score >= best {
        best, at := score, Some(i);
      }
    }
    assert candidates[..|candidates|] == candidates;
  }

  /** One fact of the batch: skipped, or inserted after superseding its best match. */
  method StoreFact(store: FactStore, fact: string, namespace: Option<string>, answer: Answer,
                   candidates: seq<Candidate>, counts: Counts)
    returns (candidates': seq<Candidate>, counts': Counts)
    requires InRange(State(store.rows, candidates, counts))
    modifies store
    ensures State(store.rows, candidates', counts') ==
            Consolidated(State(old(store.rows), candidates, counts), namespace, fact, answer)
  {
    candidates', counts' := candidates, counts;
    var words := Tokens(fact);
    var best, at := FindBest(candidates, words);
    if best >= DEDUP {
      counts' := counts'.(skipped := counts'.skipped + 1);
      return;
    }
    if best >= SUPERSEDE {
      var done := store.InvalidateChunk(candidates[at.value].id, answer.invalidates);
      if done {
        counts' := counts'.(superseded := counts'.superseded + 1);
        candidates' := WithoutAt(candidates, at.value);
      }
    }
    var rid := store.AddChunk(fact, namespace, answer.addSucceeds);
    if rid.Some? {
      counts' := counts'.(added := counts'.added + 1);
      candidates' := candidates' + [Candidate(rid.value, words)];
    }
  }

  method ConsolidateAndStore(store: FactStore, facts: seq<string>, namespace: Option<string>, listing: Option<seq<nat>>,
                             answers: seq<Answer>)
    returns (counts: Counts)
    requires |answers| == |facts|
    requires listing.Some? ==> forall i :: 0 <= i < |listing.value| ==> listing.value[i] < |store.rows|
    modifies store
    ensures var st := ConsolidatedAll(State(old(store.rows), Listed(old(store.rows), listing), Counts(0, 0, 0)),
                                      namespace, facts, answers);
            store.rows == st.rows && counts == st.counts
  {
    counts := Counts(0, 0, 0);
    var candidates := Listed(store.rows, listing);
    ghost var start := State(store.rows, candidates, counts);
    for k := 0 to |facts|
      invariant InRange(start)
      invariant State(store.rows, candidates, counts) == ConsolidatedAll(start, namespace, facts[..k], answers[..k])
    {
      assert facts[..k + 1][..k] == facts[..k] && answers[..k + 1][..k] == answers[..k];
      candidates, counts := StoreFact(store, facts[k], namespace, answers[k], candidates, counts);
    }
    assert facts[..|facts|] == facts && answers[..|facts|] == answers;
  }
}
