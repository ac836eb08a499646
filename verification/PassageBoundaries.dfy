/** Where a text is broken: at white space between words, after a sentence's end, at blank lines; and
    when packed items go on to the next part. */
module PassageBoundaries {
  import opened Strings
  import opened Passages

  // ---- Words --------------------------------------------------------------------------------

  lemma {:induction false} WordsBehind(a: string, c: char, b: string)
    requires IsSpace(c)
    ensures var (done, word) := WordScan(b); WordScan(a + [c] + b) == (Words(a) + done, word)
  {
    var whole := a + [c] + b;
    if b == "" {
      assert whole[..|whole| - 1] == a && Words(a) + [] == Words(a);
    } else {
      var n := |b| - 1;
      assert whole[..|whole| - 1] == a + [c] + b[..n];
      WordsBehind(a, c, b[..n]);
      var (done, word) := WordScan(b[..n]);
      assert Words(a) + done + [word] == Words(a) + (done + [word]);
    }
  }

  /** White space separates words. */
  lemma SpaceSeparatesWords(a: string, c: char, b: string)
    requires IsSpace(c)
    ensures Words(a + [c] + b) == Words(a) + Words(b)
  {
    WordsBehind(a, c, b);
    var (done, word) := WordScan(b);
    assert Words(a) + done + [word] == Words(a) + (done + [word]);
  }

  lemma {:induction false} WordScansWhole(word: string)
    requires forall i :: 0 <= i < |word| ==> !IsSpace(word[i])
    ensures WordScan(word) == ([], word)
  {
    if word != "" {
      WordScansWhole(word[..|word| - 1]);
      assert word == word[..|word| - 1] + [word[|word| - 1]];
    }
  }

  /** And nothing else does. */
  lemma SolidIsOneWord(word: string)
    requires Solid(word)
    ensures Words(word) == [word]
  {
    WordScansWhole(word);
    assert [] + [word] == [word];
  }

  // ---- Sentences ----------------------------------------------------------------------------

  lemma {:induction false} SentenceGap(a: string, gap: string)
    requires a != "" && a[|a| - 1] in ".!?" && gap != "" && AllSpace(gap)
    ensures SentenceScan(a + gap) == (Sentences(a), "", true)
  {
    var whole, n := a + gap, |gap| - 1;
    assert whole[..|whole| - 1] == a + gap[..n] && whole[|whole| - 1] == gap[n] && IsSpace(gap[n]);
    if n == 0 {
      assert a + gap[..n] == a;
      assert !IsSpace(a[|a| - 1]);
    } else {
      SentenceGap(a, gap[..n]);
    }
  }

  function SentenceStep(scan: (seq<string>, string, bool), c: char): (seq<string>, string, bool) {
    var (done, cur, gap) := scan;
    if IsSpace(c) && gap then (done, cur, true)
    else if IsSpace(c) && cur != "" && cur[|cur| - 1] in ".!?" then (done + [cur], "", true)
    else (done, cur + [c], false)
  }

  lemma SentenceScanStep(s: string)
    requires s != ""
    ensures SentenceScan(s) == SentenceStep(SentenceScan(s[..|s| - 1]), s[|s| - 1])
  {
  }

  lemma SentenceStepBehind(done: seq<string>, db: seq<string>, cur: string, gap: bool, c: char)
    ensures var (more, now, after) := SentenceStep((db, cur, gap), c);
            SentenceStep((done + db, cur, gap), c) == (done + more, now, after)
  {
    assert done + db + [cur] == done + (db + [cur]);
  }

  lemma {:induction false} SentencesBehind(x: string, done: seq<string>, b: string)
    requires SentenceScan(x) == (done, "", true) && b != "" && !IsSpace(b[0])
    ensures var (db, cur, gap) := SentenceScan(b); SentenceScan(x + b) == (done + db, cur, gap)
  {
    var whole, n := x + b, |b| - 1;
    assert whole[..|whole| - 1] == x + b[..n] && whole[|whole| - 1] == b[n];
    SentenceScanStep(b);
    SentenceScanStep(whole);
    if n == 0 {
      assert x + b[..n] == x && done + [] == done && "" + [b[0]] == [b[0]];
      assert SentenceScan(b[..0]) == ([], "", false);
    } else {
      SentencesBehind(x, done, b[..n]);
      var (db, cur, gap) := SentenceScan(b[..n]);
      SentenceStepBehind(done, db, cur, gap, b[n]);
    }
  }

  /** A sentence ends at the white space behind a full stop, an exclamation or a question mark. */
  lemma SentenceEnds(a: string, gap: string, b: string)
    requires a != "" && a[|a| - 1] in ".!?" && gap != "" && AllSpace(gap) && b != "" && !IsSpace(b[0])
    ensures Sentences(a + gap + b) == Sentences(a) + Sentences(b)
  {
    SentenceGap(a, gap);
    SentencesBehind(a + gap, Sentences(a), b);
    var (db, cur, _) := SentenceScan(b);
    assert Sentences(a) + db + [cur] == Sentences(a) + (db + [cur]);
  }

  /** And nowhere else. */
  lemma {:induction false} OneSentence(s: string)
    requires forall i :: 0 < i < |s| && IsSpace(s[i]) ==> s[i - 1] !in ".!?"
    ensures SentenceScan(s) == ([], s, false) && Sentences(s) == [s]
  {
    if s != "" {
      var n := |s| - 1;
      assert s == s[..n] + [s[n]];
      OneSentence(s[..n]);
    }
  }

  // ---- Paragraphs ----------------------------------------------------------------------------

  lemma {:induction false} ParagraphGap(a: string, gap: string)
    requires a != "" && !IsSpace(a[|a| - 1]) && AllSpace(gap)
    ensures var (done, cur, _) := ParagraphScan(a);
            ParagraphScan(a + gap) == (done, cur, gap) && Paragraphs(a) == done + [cur]
  {
    var whole, n := a + gap, |gap| - 1;
    if gap == "" {
      assert whole == a;
      var (done, cur, left) := ParagraphScan(a);
      assert left == "" && cur + "" == cur;
    } else {
      assert whole[..|whole| - 1] == a + gap[..n] && whole[|whole| - 1] == gap[n] && gap == gap[..n] + [gap[n]];
      ParagraphGap(a, gap[..n]);
    }
  }

  /** What was scanned behind a paragraph's end, with what of the gap is kept ahead of it. */
  function Behind(done: seq<string>, kept: string, scan: (seq<string>, string, string)): (seq<string>, string, string) {
    var (db, cur, gap) := scan;
    if db == [] then (done, kept + cur, gap) else (done + [kept + db[0]] + db[1..], cur, gap)
  }

  lemma {:induction false} ParagraphsBehind(x: string, done: seq<string>, cur: string, gap: string, b: string)
    requires ParagraphScan(x) == (done, cur, gap) && Newlines(gap) >= 2 && b != "" && !IsSpace(b[0])
    ensures ParagraphScan(x + b) == Behind(done + [cur + Lead(gap)], Rest(gap), ParagraphScan(b))
    ensures ParagraphScan(b).1 != ""
  {
    var whole, n := x + b, |b| - 1;
    assert whole[..|whole| - 1] == x + b[..n] && whole[|whole| - 1] == b[n];
    if n == 0 {
      assert x + b[..n] == x;
      assert ParagraphScan(b[..0]) == ([], "", "");
      assert "" + "" + [b[0]] == [b[0]] && ParagraphScan(b) == ([], [b[0]], "");
    } else {
      ParagraphsBehind(x, done, cur, gap, b[..n]);
      ParagraphScanStep(b);
      ParagraphScanStep(whole);
      StepBehind(done + [cur + Lead(gap)], Rest(gap), ParagraphScan(b[..n]), b[n]);
    }
  }

  /** One more character, and what was scanned before it. */
  function ParagraphStep(scan: (seq<string>, string, string), c: char): (seq<string>, string, string) {
    var (done, cur, gap) := scan;
    if IsSpace(c) then (done, cur, gap + [c])
    else if Newlines(gap) >= 2 then (done + [cur + Lead(gap)], Rest(gap) + [c], "")
    else (done, cur + gap + [c], "")
  }

  lemma ParagraphScanStep(s: string)
    requires s != ""
    ensures ParagraphScan(s) == ParagraphStep(ParagraphScan(s[..|s| - 1]), s[|s| - 1])
  {
  }

  lemma StepBehind(done: seq<string>, kept: string, scan: (seq<string>, string, string), c: char)
    ensures ParagraphStep(Behind(done, kept, scan), c) == Behind(done, kept, ParagraphStep(scan, c))
  {
    var (db, cur, gap) := scan;
    if IsSpace(c) {
    } else if Newlines(gap) >= 2 {
      ParagraphBehind(done, kept, db, cur, Lead(gap));
    } else {
      assert kept + cur + gap + [c] == kept + (cur + gap + [c]);
    }
  }

  lemma ParagraphBehind(done: seq<string>, kept: string, db: seq<string>, cur: string, lead: string)
    ensures db == [] ==> done + [kept + cur + lead] == done + [kept + [cur + lead][0]] + [cur + lead][1..]
    ensures db != [] ==> done + [kept + db[0]] + db[1..] + [cur + lead]
                         == done + [kept + (db + [cur + lead])[0]] + (db + [cur + lead])[1..]
    ensures db == [] ==> db + [cur + lead] == [cur + lead]
  {
    assert kept + cur + lead == kept + (cur + lead);
  }

  /** A paragraph ends at a blank line, of which only white space is kept on either side. */
  lemma ParagraphEndsAtBlankLine(a: string, gap: string, b: string)
    requires a != "" && !IsSpace(a[|a| - 1]) && AllSpace(gap) && Newlines(gap) >= 2 && b != "" && !IsSpace(b[0])
    ensures var before, after := Paragraphs(a), Paragraphs(b);
            && before != [] && after != [] && AllSpace(Lead(gap)) && AllSpace(Rest(gap))
            && Paragraphs(a + gap + b) == before[..|before| - 1] + [before[|before| - 1] + Lead(gap)]
                                          + [Rest(gap) + after[0]] + after[1..]
  {
    var (done, cur, _) := ParagraphScan(a);
    ParagraphGap(a, gap);
    ParagraphsBehind(a + gap, done, cur, gap, b);
    LeadIsSpace(gap);
    ClosedBehind(done + [cur + Lead(gap)], Rest(gap), a + gap + b, b);
    assert Paragraphs(a)[..|Paragraphs(a)| - 1] == done;
  }

  lemma ClosedBehind(done: seq<string>, kept: string, whole: string, b: string)
    requires ParagraphScan(whole) == Behind(done, kept, ParagraphScan(b))
    ensures Paragraphs(b) != [] && Paragraphs(whole) == done + [kept + Paragraphs(b)[0]] + Paragraphs(b)[1..]
  {
    var (db, cur, gap) := ParagraphScan(b);
    if Newlines(gap) >= 2 {
      CloseBehind(done, kept, db, cur, Lead(gap), [Rest(gap)]);
      assert db + [cur + Lead(gap), Rest(gap)] == db + [cur + Lead(gap)] + [Rest(gap)];
    } else {
      CloseBehind(done, kept, db, cur, gap, []);
      assert db + [cur + gap] + [] == db + [cur + gap];
    }
  }

  lemma CloseBehind(done: seq<string>, kept: string, db: seq<string>, cur: string, end: string, more: seq<string>)
    ensures var parts := db + [cur + end] + more;
            done + [kept + parts[0]] + parts[1..]
            == if db == [] then done + [kept + cur + end] + more
               else done + [kept + db[0]] + db[1..] + ([cur + end] + more)
  {
    assert kept + cur + end == kept + (cur + end);
  }

  /** And nowhere else. */
  lemma {:induction false} OneParagraph(s: string)
    requires forall i, j :: 0 <= i <= j <= |s| && AllSpace(s[i..j]) ==> Newlines(s[i..j]) < 2
    ensures var (done, cur, gap) := ParagraphScan(s); done == [] && cur + gap == s && AllSpace(gap)
    ensures Paragraphs(s) == [s]
  {
    if s != "" {
      var n := |s| - 1;
      assert s == s[..n] + [s[n]];
      forall i, j | 0 <= i <= j <= n ensures s[..n][i..j] == s[i..j] {}
      OneParagraph(s[..n]);
      var (done, cur, gap) := ParagraphScan(s[..n]);
      assert gap == s[|cur|..n] && cur + gap + [s[n]] == s;
      if IsSpace(s[n]) { assert gap + [s[n]] == s[|cur|..n + 1]; }
    }
  }

  // ---- Packing --------------------------------------------------------------------------------

  /** An item joins the part being filled, behind a space, exactly when both fit the limit; else that
      part is done and the item begins the next. */
  lemma WhenAPartIsDone(p: Pack, item: string, pieces: seq<string>, max: nat)
    requires |item| <= max
    ensures var q := PackOne(p, item, pieces, max);
            if p.buf == "" then q == Pack(p.parts, item)
            else if |p.buf| + 1 + |item| <= max then q == Pack(p.parts, p.buf + " " + item)
            else q == Pack(p.parts + [p.buf], item)
  {
  }
}
