/** What becomes of one extracted fact, and how alike two texts are. */
module FactDecisions {
  import opened Wrappers
  import opened FactMemory

  // ---- One fact ------------------------------------------------------------------------------

  /** The candidate's score, and that no other is greater and no later one as great. */
  predicate IsBest(candidates: seq<Candidate>, words: set<string>, i: nat)
    requires i < |candidates|
  {
    && (forall j :: 0 <= j < i ==> Jaccard(words, candidates[j].words) <= Jaccard(words, candidates[i].words))
    && (forall j :: i < j < |candidates| ==> Jaccard(words, candidates[j].words) < Jaccard(words, candidates[i].words))
  }

  lemma BestIsIt(candidates: seq<Candidate>, words: set<string>, i: nat)
    requires i < |candidates| && IsBest(candidates, words, i)
    ensures Best(candidates, words) == Some(i) && BestScore(candidates, words) == Jaccard(words, candidates[i].words)
  {
    BestIsGreatest(candidates, words);
  }

  /** With a best match at 0.85 or more the fact is skipped; from 0.6 on the match stops being valid,
      if the store does that, and is no longer compared with; below, nothing is given up. A fact that
      is not skipped is then added, if the store does that, and compared with from then on. */
  lemma WhatAFactDoes(st: State, namespace: Option<string>, fact: string, answer: Answer, i: nat)
    requires InRange(st) && i < |st.candidates| && IsBest(st.candidates, Tokens(fact), i)
    ensures var score, id, r := Jaccard(Tokens(fact), st.candidates[i].words), st.candidates[i].id,
                                Consolidated(st, namespace, fact, answer);
            if score >= 0.85 then
              r.rows == st.rows && r.candidates == st.candidates
              && r.counts == Counts(st.counts.added, st.counts.skipped + 1, st.counts.superseded)
            else
              var gone := score >= 0.6 && answer.invalidates;
              var rows := if gone then st.rows[id := Row(st.rows[id].namespace, st.rows[id].content, false)]
                          else st.rows;
              var left := if gone then st.candidates[..i] + st.candidates[i + 1..] else st.candidates;
              && r.rows == (if answer.addSucceeds then rows + [Row(namespace, fact, true)] else rows)
              && r.candidates == (if answer.addSucceeds then left + [Candidate(|rows|, Tokens(fact))] else left)
              && r.counts == Counts(st.counts.added + (if answer.addSucceeds then 1 else 0), st.counts.skipped,
                                    st.counts.superseded + if gone then 1 else 0)
  {
    BestIsIt(st.candidates, Tokens(fact), i);
  }

  /** With nothing to compare with, the fact is added, if the store does that. */
  lemma WhatAFirstFactDoes(st: State, namespace: Option<string>, fact: string, answer: Answer)
    requires InRange(st) && st.candidates == []
    ensures Consolidated(st, namespace, fact, answer).rows
            == if answer.addSucceeds then st.rows + [Row(namespace, fact, true)] else st.rows
  {
  }

  // ---- Likeness --------------------------------------------------------------------------------

  /** The share of the words of either text that are words of both; none for a text without words. */
  lemma JaccardIsTheShare(a: set<string>, b: set<string>)
    ensures a == {} || b == {} ==> Jaccard(a, b) == 0.0
    ensures a != {} && b != {} ==> Jaccard(a, b) * (|a + b| as real) == |a * b| as real
  {
    if a != {} && b != {} {
      var x :| x in a;
      assert x in a + b;
    }
  }

  predicate WordLetter(c: char) {
    'a' <= c <= 'z' || 'A' <= c <= 'Z' || '0' <= c <= '9' || c == '_' || c == '\''
  }

  function Lowered(s: string): string {
    seq(|s|, i requires 0 <= i < |s| => Lower(s[i]))
  }

  lemma {:induction false} WordScans(word: string)
    requires forall i :: 0 <= i < |word| ==> WordLetter(word[i])
    ensures Scan(word) == ({}, Lowered(word))
  {
    if word != "" {
      var n := |word| - 1;
      WordScans(word[..n]);
      assert Lowered(word) == Lowered(word[..n]) + [Lower(word[n])];
    }
  }

  /** A word is its own token, in lower case. */
  lemma WordIsItsToken(word: string)
    requires word != "" && forall i :: 0 <= i < |word| ==> WordLetter(word[i])
    ensures Tokens(word) == {Lowered(word)}
  {
    WordScans(word);
    assert {} + {Lowered(word)} == {Lowered(word)};
  }

  lemma {:induction false} ScanBehind(a: string, c: char, b: string)
    requires !WordLetter(c)
    ensures var (done, word) := Scan(b); Scan(a + [c] + b) == (Tokens(a) + done, word)
  {
    var whole := a + [c] + b;
    if b == "" {
      assert whole[..|whole| - 1] == a && whole == a + [c];
      assert Tokens(a) + {} == Tokens(a);
    } else {
      var n := |b| - 1;
      assert whole[..|whole| - 1] == a + [c] + b[..n];
      ScanBehind(a, c, b[..n]);
      var (done, word) := Scan(b[..n]);
      assert Tokens(a) + done + {word} == Tokens(a) + (done + {word});
    }
  }

  /** Anything that is no letter, digit, underscore or apostrophe separates words. */
  lemma SeparatorsSeparate(a: string, c: char, b: string)
    requires !WordLetter(c)
    ensures Tokens(a + [c] + b) == Tokens(a) + Tokens(b)
  {
    ScanBehind(a, c, b);
    var (done, word) := Scan(b);
    assert Tokens(a) + done + {word} == Tokens(a) + (done + {word});
  }
}
