/** What consolidation keeps: facts stay apart, the counts add up, and rows are only ever added
    or invalidated. */
module FactInvariants {
  import opened Wrappers
  import opened FactMemory

  /** The rows a batch in that namespace sees; a batch without a namespace sees all. */
  predicate InScope(row: Row, namespace: Option<string>) {
    namespace.Some? ==> row.namespace == namespace
  }

  /** The valid facts in scope. */
  function ValidIds(rows: seq<Row>, namespace: Option<string>): set<nat> {
    set i: nat | i < |rows| && rows[i].valid && InScope(rows[i], namespace)
  }

  predicate Alike(a: string, b: string) {
    Jaccard(Tokens(a), Tokens(b)) >= DEDUP
  }

  /** No two valid facts in scope are near-duplicates. */
  predicate Apart(rows: seq<Row>, namespace: Option<string>) {
    forall i, j :: i in ValidIds(rows, namespace) && j in ValidIds(rows, namespace) && i != j ==>
      !Alike(rows[i].content, rows[j].content)
  }

  function IdsOf(cs: seq<Candidate>): set<nat> {
    set i | 0 <= i < |cs| :: cs[i].id
  }

  predicate Distinct(cs: seq<Candidate>) {
    forall i, j :: 0 <= i < j < |cs| ==> cs[i].id != cs[j].id
  }

  /** The candidates are valid facts in scope, each once and with its words; a listing may
      have missed some. */
  predicate Sound(st: State, namespace: Option<string>) {
    && InRange(st)
    && Distinct(st.candidates)
    && (forall i :: 0 <= i < |st.candidates| ==>
          st.candidates[i].words == Tokens(st.rows[st.candidates[i].id].content))
    && IdsOf(st.candidates) <= ValidIds(st.rows, namespace)
  }

  /** The valid facts no candidate stands for. */
  function Unlisted(st: State, namespace: Option<string>): set<nat> {
    ValidIds(st.rows, namespace) - IdsOf(st.candidates)
  }

  /** No two facts with candidates are near-duplicates. */
  predicate ListedApart(st: State)
    requires InRange(st)
  {
    forall i, j :: 0 <= i < j < |st.candidates| ==>
      Jaccard(st.candidates[i].words, st.candidates[j].words) < DEDUP
  }

  lemma JaccardCommutes(a: set<string>, b: set<string>)
    ensures Jaccard(a, b) == Jaccard(b, a)
  {
    assert a * b == b * a && a + b == b + a;
  }

  // ---- One fact ---------------------------------------------------------------------------------

  lemma IdsWithout(cs: seq<Candidate>, k: nat)
    requires Distinct(cs) && k < |cs|
    ensures Distinct(WithoutAt(cs, k)) && IdsOf(WithoutAt(cs, k)) == IdsOf(cs) - {cs[k].id}
    ensures forall i :: 0 <= i < |cs| - 1 ==> WithoutAt(cs, k)[i] == cs[if i < k then i else i + 1]
  {
    var left := WithoutAt(cs, k);
    forall x | x in IdsOf(cs) - {cs[k].id} ensures x in IdsOf(left) {
      var i :| 0 <= i < |cs| && cs[i].id == x;
      assert left[if i < k then i else i - 1] == cs[i];
    }
  }

  lemma InvalidatedIds(rows: seq<Row>, namespace: Option<string>, id: nat)
    requires id in ValidIds(rows, namespace)
    ensures ValidIds(rows[id := rows[id].(valid := false)], namespace) == ValidIds(rows, namespace) - {id}
  {
  }

  /** Rows stay in place with their text and namespace; only rows in scope stop being valid. */
  predicate RowsKept(was: seq<Row>, now: seq<Row>, namespace: Option<string>) {
    && |was| <= |now|
    && forall i :: 0 <= i < |was| ==>
         now[i] == was[i] || (InScope(was[i], namespace) && now[i] == was[i].(valid := false))
  }

  lemma SupersedeKeepsListing(st: State, namespace: Option<string>, words: set<string>, answer: Answer)
    requires Sound(st, namespace)
    ensures var r := Superseded(st, words, answer);
            && Sound(r, namespace)
            && Unlisted(r, namespace) == Unlisted(st, namespace)
            && forall i :: 0 <= i < |r.candidates| ==> r.candidates[i] in st.candidates
  {
    var r, b := Superseded(st, words, answer), Best(st.candidates, words);
    if r != st {
      var id := st.candidates[b.value].id;
      assert id in IdsOf(st.candidates);
      IdsWithout(st.candidates, b.value);
      InvalidatedIds(st.rows, namespace, id);
    }
  }

  lemma SupersedeKeepsRows(st: State, namespace: Option<string>, words: set<string>, answer: Answer)
    requires Sound(st, namespace)
    ensures var r := Superseded(st, words, answer);
            && RowsKept(st.rows, r.rows, namespace)
            && |ValidIds(r.rows, namespace)| + r.counts.superseded ==
               |ValidIds(st.rows, namespace)| + st.counts.superseded
  {
    var r, b := Superseded(st, words, answer), Best(st.candidates, words);
    if r != st {
      var id := st.candidates[b.value].id;
      assert id in IdsOf(st.candidates);
      InvalidatedIds(st.rows, namespace, id);
    }
  }

  lemma SupersedeKeepsApart(st: State, namespace: Option<string>, words: set<string>, answer: Answer)
    requires Sound(st, namespace) && ListedApart(st)
    ensures InRange(Superseded(st, words, answer)) && ListedApart(Superseded(st, words, answer))
  {
    var r, b := Superseded(st, words, answer), Best(st.candidates, words);
    if r != st { IdsWithout(st.candidates, b.value); }
  }

  lemma SupersedeKeeps(st: State, namespace: Option<string>, words: set<string>, answer: Answer)
    requires Sound(st, namespace)
    ensures var r := Superseded(st, words, answer);
            && Sound(r, namespace)
            && Unlisted(r, namespace) == Unlisted(st, namespace)
            && RowsKept(st.rows, r.rows, namespace)
            && |ValidIds(r.rows, namespace)| + r.counts.superseded ==
               |ValidIds(st.rows, namespace)| + st.counts.superseded
            && (ListedApart(st) ==> ListedApart(r))
            && forall i :: 0 <= i < |r.candidates| ==> r.candidates[i] in st.candidates
  {
    SupersedeKeepsListing(st, namespace, words, answer);
    SupersedeKeepsRows(st, namespace, words, answer);
    if ListedApart(st) { SupersedeKeepsApart(st, namespace, words, answer); }
  }

  lemma InsertKeeps(st: State, namespace: Option<string>, fact: string, answer: Answer)
    requires Sound(st, namespace)
    ensures var r := Inserted(st, namespace, fact, answer);
            && Sound(r, namespace)
            && Unlisted(r, namespace) == Unlisted(st, namespace)
            && ValidIds(r.rows, namespace) ==
               ValidIds(st.rows, namespace) + (if answer.addSucceeds then {|st.rows|} else {})
  {
    var r := Inserted(st, namespace, fact, answer);
    if answer.addSucceeds {
      var n := |st.candidates|;
      assert r.candidates[n].id == |st.rows| && r.candidates[..n] == st.candidates;
      assert IdsOf(r.candidates) == IdsOf(st.candidates) + {|st.rows|} by {
        forall x | x in IdsOf(st.candidates) ensures x in IdsOf(r.candidates) {
          var i :| 0 <= i < n && st.candidates[i].id == x;
          assert r.candidates[i].id == x;
        }
      }
    }
  }

  lemma InsertStaysApart(st: State, namespace: Option<string>, fact: string, answer: Answer)
    requires Sound(st, namespace) && ListedApart(st)
    requires forall i :: 0 <= i < |st.candidates| ==> Jaccard(Tokens(fact), st.candidates[i].words) < DEDUP
    ensures ListedApart(Inserted(st, namespace, fact, answer))
  {
    forall i | 0 <= i < |st.candidates| ensures Jaccard(st.candidates[i].words, Tokens(fact)) < DEDUP {
      JaccardCommutes(Tokens(fact), st.candidates[i].words);
    }
  }

  lemma MatchesAreApart(st: State, namespace: Option<string>, words: set<string>, answer: Answer)
    requires Sound(st, namespace) && BestScore(st.candidates, words) < DEDUP
    ensures var r := Superseded(st, words, answer);
            forall i :: 0 <= i < |r.candidates| ==> Jaccard(words, r.candidates[i].words) < DEDUP
  {
    BestIsGreatest(st.candidates, words);
    SupersedeKeeps(st, namespace, words, answer);
  }

  /** The fact is added: nothing listed is a near-duplicate of it, and the store takes it. */
  predicate Adds(st: State, fact: string, answer: Answer) {
    BestScore(st.candidates, Tokens(fact)) < DEDUP && answer.addSucceeds
  }

  /** One fact, over any listing: the candidates stay sound and apart, no unlisted fact is touched
      and rows are kept. */
  lemma FactKeeps(st: State, namespace: Option<string>, fact: string, answer: Answer)
    requires Sound(st, namespace)
    ensures var r := Consolidated(st, namespace, fact, answer);
            && Sound(r, namespace)
            && Unlisted(r, namespace) == Unlisted(st, namespace)
            && RowsKept(st.rows, r.rows, namespace)
            && (ListedApart(st) ==> ListedApart(r))
  {
    var words := Tokens(fact);
    if BestScore(st.candidates, words) < DEDUP {
      var mid := Superseded(st, words, answer);
      SupersedeKeeps(st, namespace, words, answer);
      InsertKeeps(mid, namespace, fact, answer);
      MatchesAreApart(st, namespace, words, answer);
      if ListedApart(st) { InsertStaysApart(mid, namespace, fact, answer); }
    }
  }

  // ---- A batch, over any listing -----------------------------------------------------------------------

  /** The facts a batch can see stay apart, whatever the listing missed and whichever of its
      invalidations and additions the store carries out; those it cannot see stay as they are. */
  lemma {:induction false} BatchKeeps(st: State, namespace: Option<string>, facts: seq<string>, answers: seq<Answer>)
    requires |answers| == |facts| && Sound(st, namespace)
    ensures var r := ConsolidatedAll(st, namespace, facts, answers);
            && Sound(r, namespace)
            && Unlisted(r, namespace) == Unlisted(st, namespace)
            && (ListedApart(st) ==> ListedApart(r))
    decreases |facts|
  {
    if facts != [] {
      var n := |facts| - 1;
      BatchKeeps(st, namespace, facts[..n], answers[..n]);
      FactKeeps(ConsolidatedAll(st, namespace, facts[..n], answers[..n]), namespace, facts[n], answers[n]);
    }
  }

  /** No row is deleted or edited: what was there stays in place, its text and namespace
      unchanged; at most it is no longer valid, and only in scope: a batch with a namespace leaves
      every other namespace's rows as they were. */
  lemma {:induction false} RowsAreKept(st: State, namespace: Option<string>, facts: seq<string>, answers: seq<Answer>)
    requires |answers| == |facts| && Sound(st, namespace)
    ensures RowsKept(st.rows, ConsolidatedAll(st, namespace, facts, answers).rows, namespace)
    decreases |facts|
  {
    if facts != [] {
      var n := |facts| - 1;
      RowsAreKept(st, namespace, facts[..n], answers[..n]);
      BatchKeeps(st, namespace, facts[..n], answers[..n]);
      FactKeeps(ConsolidatedAll(st, namespace, facts[..n], answers[..n]), namespace, facts[n], answers[n]);
    }
  }

  function Failures(answers: seq<Answer>): nat {
    if answers == [] then 0 else
    Failures(answers[..|answers| - 1]) + if answers[|answers| - 1].addSucceeds then 0 else 1
  }

  /** The valid facts change by what was added less what was superseded; every fact of the batch
      is added, skipped or, if its addition failed, neither. */
  lemma {:induction false} CountsAddUp(st: State, namespace: Option<string>, facts: seq<string>, answers: seq<Answer>)
    requires |answers| == |facts| && Sound(st, namespace)
    ensures var r := ConsolidatedAll(st, namespace, facts, answers);
            && |ValidIds(r.rows, namespace)| + r.counts.superseded + st.counts.added ==
               |ValidIds(st.rows, namespace)| + r.counts.added + st.counts.superseded
            && r.counts.added + r.counts.skipped <= st.counts.added + st.counts.skipped + |facts|
                 <= r.counts.added + r.counts.skipped + Failures(answers)
    decreases |facts|
  {
    if facts != [] {
      var n := |facts| - 1;
      CountsAddUp(st, namespace, facts[..n], answers[..n]);
      BatchKeeps(st, namespace, facts[..n], answers[..n]);
      FactCounts(ConsolidatedAll(st, namespace, facts[..n], answers[..n]), namespace, facts[n], answers[n]);
    }
  }

  lemma FactCounts(st: State, namespace: Option<string>, fact: string, answer: Answer)
    requires Sound(st, namespace)
    ensures var r := Consolidated(st, namespace, fact, answer);
            && |ValidIds(r.rows, namespace)| + r.counts.superseded + st.counts.added ==
               |ValidIds(st.rows, namespace)| + r.counts.added + st.counts.superseded
            && r.counts.added + r.counts.skipped <= st.counts.added + st.counts.skipped + 1
                 <= r.counts.added + r.counts.skipped + if answer.addSucceeds then 0 else 1
  {
    if BestScore(st.candidates, Tokens(fact)) < DEDUP {
      var mid := Superseded(st, Tokens(fact), answer);
      SupersedeKeeps(st, namespace, Tokens(fact), answer);
      InsertKeeps(mid, namespace, fact, answer);
      assert |st.rows| !in ValidIds(mid.rows, namespace);
    }
  }

  // ---- When the valid facts stay apart ---------------------------------------------------------------

  /** The fact is a near-duplicate of a valid one that the listing missed. */
  predicate CopiesUnlisted(st: State, namespace: Option<string>, fact: string) {
    exists u :: u in Unlisted(st, namespace) && Alike(fact, st.rows[u].content)
  }

  /** No fact with a candidate is a near-duplicate of one that the listing missed. */
  predicate CrossesApart(st: State, namespace: Option<string>)
    requires InRange(st)
  {
    forall u, i :: u in Unlisted(st, namespace) && 0 <= i < |st.candidates| ==>
      Jaccard(st.candidates[i].words, Tokens(st.rows[u].content)) < DEDUP
  }

  predicate UnlistedApart(st: State, namespace: Option<string>) {
    forall u, v :: u in Unlisted(st, namespace) && v in Unlisted(st, namespace) && u != v ==>
      !Alike(st.rows[u].content, st.rows[v].content)
  }

  /** The valid facts are apart exactly when the listed, the unlisted, and the two against each
      other are. */
  lemma ApartInParts(st: State, namespace: Option<string>)
    requires Sound(st, namespace)
    ensures Apart(st.rows, namespace) <==>
            ListedApart(st) && UnlistedApart(st, namespace) && CrossesApart(st, namespace)
  {
    if Apart(st.rows, namespace) { ApartGivesParts(st, namespace); }
    if ListedApart(st) && UnlistedApart(st, namespace) && CrossesApart(st, namespace) {
      forall a, b | a in ValidIds(st.rows, namespace) && b in ValidIds(st.rows, namespace) && a != b
        ensures !Alike(st.rows[a].content, st.rows[b].content)
      {
        PartsGiveApart(st, namespace, a, b);
      }
    }
  }

  lemma ApartGivesParts(st: State, namespace: Option<string>)
    requires Sound(st, namespace) && Apart(st.rows, namespace)
    ensures ListedApart(st) && UnlistedApart(st, namespace) && CrossesApart(st, namespace)
  {
    forall i | 0 <= i < |st.candidates| ensures st.candidates[i].id in ValidIds(st.rows, namespace) {
      assert st.candidates[i].id in IdsOf(st.candidates);
    }
    forall u, i | u in Unlisted(st, namespace) && 0 <= i < |st.candidates|
      ensures Jaccard(st.candidates[i].words, Tokens(st.rows[u].content)) < DEDUP
    {
      assert st.candidates[i].id in IdsOf(st.candidates);
      assert !Alike(st.rows[st.candidates[i].id].content, st.rows[u].content);
    }
    forall i, j | 0 <= i < j < |st.candidates|
      ensures Jaccard(st.candidates[i].words, st.candidates[j].words) < DEDUP
    {
      assert !Alike(st.rows[st.candidates[i].id].content, st.rows[st.candidates[j].id].content);
    }
  }

  lemma PartsGiveApart(st: State, namespace: Option<string>, a: nat, b: nat)
    requires Sound(st, namespace)
    requires ListedApart(st) && UnlistedApart(st, namespace) && CrossesApart(st, namespace)
    requires a in ValidIds(st.rows, namespace) && b in ValidIds(st.rows, namespace) && a != b
    ensures !Alike(st.rows[a].content, st.rows[b].content)
  {
    JaccardCommutes(Tokens(st.rows[a].content), Tokens(st.rows[b].content));
    if a in IdsOf(st.candidates) {
      var i :| 0 <= i < |st.candidates| && st.candidates[i].id == a;
      if b in IdsOf(st.candidates) {
        var j :| 0 <= j < |st.candidates| && st.candidates[j].id == b;
        JaccardCommutes(st.candidates[i].words, st.candidates[j].words);
        assert i < j || j < i;
      } else {
        assert b in Unlisted(st, namespace);
      }
    } else if b in IdsOf(st.candidates) {
      var j :| 0 <= j < |st.candidates| && st.candidates[j].id == b;
      assert a in Unlisted(st, namespace);
    } else {
      assert a in Unlisted(st, namespace) && b in Unlisted(st, namespace);
    }
  }

  lemma UnlistedStayApart(st: State, r: State, namespace: Option<string>)
    requires Sound(st, namespace) && Sound(r, namespace) && RowsKept(st.rows, r.rows, namespace)
    requires Unlisted(r, namespace) == Unlisted(st, namespace)
    ensures UnlistedApart(r, namespace) <==> UnlistedApart(st, namespace)
    ensures forall u :: u in Unlisted(st, namespace) ==> r.rows[u].content == st.rows[u].content
  {
  }

  lemma FewerCandidatesCross(st: State, r: State, namespace: Option<string>)
    requires InRange(st) && InRange(r) && CrossesApart(st, namespace)
    requires Unlisted(r, namespace) == Unlisted(st, namespace)
    requires forall u :: u in Unlisted(st, namespace) ==> r.rows[u].content == st.rows[u].content
    requires forall i :: 0 <= i < |r.candidates| ==> r.candidates[i] in st.candidates
    ensures CrossesApart(r, namespace)
  {
    forall u, i | u in Unlisted(r, namespace) && 0 <= i < |r.candidates|
      ensures Jaccard(r.candidates[i].words, Tokens(r.rows[u].content)) < DEDUP
    {
      var c := r.candidates[i];
      var j :| 0 <= j < |st.candidates| && st.candidates[j] == c;
      assert Jaccard(st.candidates[j].words, Tokens(st.rows[u].content)) < DEDUP;
    }
  }

  lemma SupersededCrosses(st: State, namespace: Option<string>, words: set<string>, answer: Answer)
    requires Sound(st, namespace) && CrossesApart(st, namespace)
    ensures CrossesApart(Superseded(st, words, answer), namespace)
  {
    var r := Superseded(st, words, answer);
    SupersedeKeeps(st, namespace, words, answer);
    UnlistedStayApart(st, r, namespace);
    FewerCandidatesCross(st, r, namespace);
  }

  lemma InsertedCrosses(st: State, namespace: Option<string>, fact: string, answer: Answer)
    requires Sound(st, namespace) && CrossesApart(st, namespace) && answer.addSucceeds
    ensures CrossesApart(Inserted(st, namespace, fact, answer), namespace) <==> !CopiesUnlisted(st, namespace, fact)
  {
    var r, n := Inserted(st, namespace, fact, answer), |st.candidates|;
    InsertKeeps(st, namespace, fact, answer);
    assert r.candidates[..n] == st.candidates && r.candidates[n].words == Tokens(fact);
    forall u | u in Unlisted(st, namespace) ensures r.rows[u] == st.rows[u] {}
    if CopiesUnlisted(st, namespace, fact) {
      var u :| u in Unlisted(st, namespace) && Alike(fact, st.rows[u].content);
      assert !(Jaccard(r.candidates[n].words, Tokens(r.rows[u].content)) < DEDUP);
    } else {
      forall u, i | u in Unlisted(r, namespace) && 0 <= i < |r.candidates|
        ensures Jaccard(r.candidates[i].words, Tokens(r.rows[u].content)) < DEDUP
      {
        if i < n { assert r.candidates[i] == st.candidates[i]; }
      }
    }
  }

  lemma CopiesTheSame(st: State, r: State, namespace: Option<string>, fact: string)
    requires Sound(st, namespace) && Sound(r, namespace) && RowsKept(st.rows, r.rows, namespace)
    requires Unlisted(r, namespace) == Unlisted(st, namespace)
    ensures CopiesUnlisted(r, namespace, fact) <==> CopiesUnlisted(st, namespace, fact)
  {
    UnlistedStayApart(st, r, namespace);
  }

  lemma SupersededCopies(st: State, namespace: Option<string>, words: set<string>, answer: Answer, fact: string)
    requires Sound(st, namespace)
    ensures Sound(Superseded(st, words, answer), namespace)
    ensures CopiesUnlisted(Superseded(st, words, answer), namespace, fact) <==> CopiesUnlisted(st, namespace, fact)
  {
    SupersedeKeepsListing(st, namespace, words, answer);
    SupersedeKeepsRows(st, namespace, words, answer);
    CopiesTheSame(st, Superseded(st, words, answer), namespace, fact);
  }

  lemma BatchCopies(st: State, namespace: Option<string>, facts: seq<string>, answers: seq<Answer>, fact: string)
    requires |answers| == |facts| && Sound(st, namespace)
    ensures var r := ConsolidatedAll(st, namespace, facts, answers);
            Sound(r, namespace) && (CopiesUnlisted(r, namespace, fact) <==> CopiesUnlisted(st, namespace, fact))
  {
    BatchKeeps(st, namespace, facts, answers);
    RowsAreKept(st, namespace, facts, answers);
    CopiesTheSame(st, ConsolidatedAll(st, namespace, facts, answers), namespace, fact);
  }

  lemma FactCrosses(st: State, namespace: Option<string>, fact: string, answer: Answer)
    requires Sound(st, namespace) && CrossesApart(st, namespace)
    ensures var r := Consolidated(st, namespace, fact, answer);
            CrossesApart(r, namespace) <==> !(Adds(st, fact, answer) && CopiesUnlisted(st, namespace, fact))
  {
    var words := Tokens(fact);
    if BestScore(st.candidates, words) < DEDUP {
      var mid := Superseded(st, words, answer);
      SupersededCrosses(st, namespace, words, answer);
      SupersededCopies(st, namespace, words, answer, fact);
      if answer.addSucceeds { InsertedCrosses(mid, namespace, fact, answer); }
    }
  }

  /** One fact keeps the valid facts apart exactly when it is not added or copies nothing that the
      listing missed. */
  lemma FactKeepsApart(st: State, namespace: Option<string>, fact: string, answer: Answer)
    requires Sound(st, namespace) && Apart(st.rows, namespace)
    ensures Apart(Consolidated(st, namespace, fact, answer).rows, namespace) <==>
            !(Adds(st, fact, answer) && CopiesUnlisted(st, namespace, fact))
  {
    var r := Consolidated(st, namespace, fact, answer);
    ApartInParts(st, namespace);
    FactKeeps(st, namespace, fact, answer);
    UnlistedStayApart(st, r, namespace);
    FactCrosses(st, namespace, fact, answer);
    ApartInParts(r, namespace);
  }

  /** The valid facts are apart at the start of a batch and after each of its facts. */
  predicate ApartThroughout(st: State, namespace: Option<string>, facts: seq<string>, answers: seq<Answer>)
    requires InRange(st) && |answers| == |facts|
  {
    Apart(ConsolidatedAll(st, namespace, facts, answers).rows, namespace) &&
    (facts == [] || ApartThroughout(st, namespace, facts[..|facts| - 1], answers[..|facts| - 1]))
  }

  /** No fact of the batch is added that copies one the listing missed at the start. */
  predicate AddsNoCopy(st: State, namespace: Option<string>, facts: seq<string>, answers: seq<Answer>)
    requires InRange(st) && |answers| == |facts|
  {
    facts == [] ||
    (var n := |facts| - 1;
     && AddsNoCopy(st, namespace, facts[..n], answers[..n])
     && !(Adds(ConsolidatedAll(st, namespace, facts[..n], answers[..n]), facts[n], answers[n]) &&
          CopiesUnlisted(st, namespace, facts[n])))
  }

  /** Throughout a batch the valid facts stay apart exactly when no fact is added that copies one
      of the valid facts the listing missed at its start. */
  lemma {:induction false} BatchKeepsFactsApart(st: State, namespace: Option<string>, facts: seq<string>,
                                                answers: seq<Answer>)
    requires |answers| == |facts| && Sound(st, namespace) && Apart(st.rows, namespace)
    ensures ApartThroughout(st, namespace, facts, answers) <==> AddsNoCopy(st, namespace, facts, answers)
    decreases |facts|
  {
    if facts != [] {
      var n := |facts| - 1;
      BatchKeepsFactsApart(st, namespace, facts[..n], answers[..n]);
      if ApartThroughout(st, namespace, facts[..n], answers[..n]) {
        LastOfABatch(st, namespace, facts, answers);
      }
    }
  }

  lemma LastOfABatch(st: State, namespace: Option<string>, facts: seq<string>, answers: seq<Answer>)
    requires |answers| == |facts| && Sound(st, namespace) && facts != []
    requires Apart(ConsolidatedAll(st, namespace, facts[..|facts| - 1], answers[..|facts| - 1]).rows, namespace)
    ensures var n := |facts| - 1;
            Apart(ConsolidatedAll(st, namespace, facts, answers).rows, namespace) <==>
            !(Adds(ConsolidatedAll(st, namespace, facts[..n], answers[..n]), facts[n], answers[n]) &&
              CopiesUnlisted(st, namespace, facts[n]))
  {
    var n := |facts| - 1;
    var before := ConsolidatedAll(st, namespace, facts[..n], answers[..n]);
    BatchCopies(st, namespace, facts[..n], answers[..n], facts[n]);
    FactKeepsApart(before, namespace, facts[n], answers[n]);
  }

  /** With every valid fact listed, no batch makes two of them near-duplicates. */
  lemma {:induction false} CompleteListingKeepsFactsApart(st: State, namespace: Option<string>, facts: seq<string>,
                                                          answers: seq<Answer>)
    requires |answers| == |facts| && Sound(st, namespace) && Unlisted(st, namespace) == {}
    requires Apart(st.rows, namespace)
    ensures ApartThroughout(st, namespace, facts, answers)
    decreases |facts|
  {
    if facts != [] {
      CompleteListingKeepsFactsApart(st, namespace, facts[..|facts| - 1], answers[..|facts| - 1]);
      LastOfABatch(st, namespace, facts, answers);
    }
  }

  // ---- What a listing covers ----------------------------------------------------------------------------

  const LISTING_LIMIT := 500

  /** A store's answer to the listing: a failure, or valid facts in scope, each once, as
      many as there are up to the limit. */
  predicate IsListing(rows: seq<Row>, namespace: Option<string>, listing: Option<seq<nat>>) {
    listing.Some? ==>
      var ids := listing.value;
      && (forall i :: 0 <= i < |ids| ==> ids[i] in ValidIds(rows, namespace))
      && (forall i, j :: 0 <= i < j < |ids| ==> ids[i] != ids[j])
      && |ids| == if |ValidIds(rows, namespace)| < LISTING_LIMIT then |ValidIds(rows, namespace)| else LISTING_LIMIT
  }

  /** Any listing is a sound start; it misses nothing exactly when it succeeds and the valid facts
      are within the limit, or there are none. */
  lemma ListingIsSound(rows: seq<Row>, namespace: Option<string>, listing: Option<seq<nat>>)
    requires IsListing(rows, namespace, listing)
    ensures var st := State(rows, Listed(rows, listing), Counts(0, 0, 0));
            && Sound(st, namespace)
            && (Unlisted(st, namespace) == {} <==>
                if listing.Some? then |ValidIds(rows, namespace)| <= LISTING_LIMIT else ValidIds(rows, namespace) == {})
  {
    var cs, valid := Listed(rows, listing), ValidIds(rows, namespace);
    if listing.Some? {
      DistinctCount(cs);
      assert IdsOf(cs) <= valid;
      assert |valid - IdsOf(cs)| == |valid| - |IdsOf(cs)|;
    }
  }

  lemma {:induction false} DistinctCount(cs: seq<Candidate>)
    requires Distinct(cs)
    ensures |IdsOf(cs)| == |cs|
  {
    if cs != [] {
      var n := |cs| - 1;
      DistinctCount(cs[..n]);
      assert IdsOf(cs) == IdsOf(cs[..n]) + {cs[n].id} by {
        forall x | x in IdsOf(cs[..n]) ensures x in IdsOf(cs) {
          var i :| 0 <= i < n && cs[..n][i].id == x;
          assert cs[i].id == x;
        }
      }
      assert cs[n].id !in IdsOf(cs[..n]);
    }
  }

  lemma AlikeItself(text: string)
    requires Tokens(text) != {}
    ensures Alike(text, text)
  {
    var words := Tokens(text);
    assert words * words == words && words + words == words;
    SameOverSame(|words|);
  }

  lemma SameOverSame(n: nat)
    requires n > 0
    ensures (n as real) / (n as real) == 1.0
  {
  }

  lemma FirstOfABatch(st: State, namespace: Option<string>, fact: string, answer: Answer)
    requires InRange(st)
    ensures ConsolidatedAll(st, namespace, [fact], [answer]) == Consolidated(st, namespace, fact, answer)
  {
  }

  /** After a failed listing a fact the namespace already holds is stored a second time. */
  lemma FailedListingStoresTwice(rows: seq<Row>, namespace: Option<string>, text: string, answer: Answer)
    requires rows == [Row(namespace, text, true)] && Tokens(text) != {} && answer.addSucceeds
    ensures IsListing(rows, namespace, None) && Apart(rows, namespace)
    ensures var st := State(rows, Listed(rows, None), Counts(0, 0, 0));
            !Apart(ConsolidatedAll(st, namespace, [text], [answer]).rows, namespace)
  {
    var st := State(rows, Listed(rows, None), Counts(0, 0, 0));
    FirstOfABatch(st, namespace, text, answer);
    ListingIsSound(rows, namespace, None);
    FactKeepsApart(st, namespace, text, answer);
    AlikeItself(text);
    assert 0 in Unlisted(st, namespace);
  }

  lemma OneCandidate(c: Candidate, words: set<string>)
    ensures Best([c], words) == Some(0) && BestScore([c], words) == Jaccard(words, c.words)
  {
    assert [c][..0] == [];
  }

  /** A batch without a namespace reaches the rows of every other: it supersedes a revised fact that
      some namespace holds, and stores the revision in none. */
  lemma UnscopedBatchReachesOthers(rows: seq<Row>, owner: string, text: string, fact: string, answer: Answer)
    requires rows == [Row(Some(owner), text, true)]
    requires SUPERSEDE <= Jaccard(Tokens(fact), Tokens(text)) < DEDUP && answer == Answer(true, true)
    ensures IsListing(rows, None, Some([0]))
    ensures ConsolidatedAll(State(rows, Listed(rows, Some([0])), Counts(0, 0, 0)), None, [fact], [answer]).rows
            == [Row(Some(owner), text, false), Row(None, fact, true)]
  {
    var st := State(rows, Listed(rows, Some([0])), Counts(0, 0, 0));
    assert ValidIds(rows, None) == {0};
    assert st.candidates == [Candidate(0, Tokens(text))];
    OneCandidate(Candidate(0, Tokens(text)), Tokens(fact));
    FirstOfABatch(st, None, fact, answer);
    assert Superseded(st, Tokens(fact), answer).rows == [Row(Some(owner), text, false)];
  }

  lemma ScanOne(text: string, c: char)
    ensures var (done, word) := Scan(text);
            Scan(text + [c]) == if IsWordChar(Lower(c)) then (done, word + [Lower(c)])
                                else (if word == "" then done else done + {word}, "")
  {
    assert (text + [c])[..|text|] == text;
  }

  /** A one-letter word, and the space behind it. */
  lemma ScanLetter(text: string, done: set<string>, c: char)
    requires Scan(text) == (done, "") && 'a' <= c <= 'z'
    ensures Scan(text + [c]) == (done, [c]) && Tokens(text + [c]) == done + {[c]}
    ensures Scan(text + [c] + [' ']) == (done + {[c]}, "")
  {
    ScanOne(text, c);
    ScanOne(text + [c], ' ');
    assert "" + [c] == [c];
  }

  lemma TwoOfThree(x: string, y: string, z: string)
    requires x != y && y != z && x != z
    ensures SUPERSEDE <= Jaccard({x, y, z}, {x, y}) < DEDUP
  {
    var two, three := {x, y}, {x, y, z};
    assert three * two == two && three + two == three && |two| == 2 && |three| == 3;
  }

  /** Texts in the band: any two letters as words, such as "a b", and the same with a third, "a b c". */
  lemma RevisionInTheBand(a: char, b: char, c: char)
    requires 'a' <= a <= 'z' && 'a' <= b <= 'z' && 'a' <= c <= 'z' && a != b && b != c && a != c
    ensures SUPERSEDE <= Jaccard(Tokens([a, ' ', b, ' ', c]), Tokens([a, ' ', b])) < DEDUP
  {
    ScanLetter("", {}, a);
    assert "" + [a] + [' '] == [a, ' '];
    ScanLetter([a, ' '], {} + {[a]}, b);
    assert [a, ' '] + [b] == [a, ' ', b] && [a, ' '] + [b] + [' '] == [a, ' ', b, ' '];
    ScanLetter([a, ' ', b, ' '], {} + {[a]} + {[b]}, c);
    assert [a, ' ', b, ' '] + [c] == [a, ' ', b, ' ', c];
    assert [a][0] != [b][0] && [b][0] != [c][0] && [a][0] != [c][0];
    assert {} + {[a]} + {[b]} == {[a], [b]} && {[a], [b]} + {[c]} == {[a], [b], [c]};
    TwoOfThree([a], [b], [c]);
  }
}
