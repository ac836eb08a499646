/** Breaking a text into passages of limited length: at blank lines first, then after sentences, then
    at white space, then inside a word.  Nothing but white space is dropped on the way. */
module Passages {
  import opened Sequences
  import opened Strings

  // ---- Text up to white space ----------------------------------------------------------------

  function Squeeze(s: string): string {
    if s == "" then "" else
    var n := |s| - 1;
    Squeeze(s[..n]) + if IsSpace(s[n]) then "" else [s[n]]
  }

  function Concat(parts: seq<string>): string {
    if parts == [] then "" else Concat(parts[..|parts| - 1]) + parts[|parts| - 1]
  }

  lemma {:induction false} SqueezeJoin(a: string, b: string)
    ensures Squeeze(a + b) == Squeeze(a) + Squeeze(b)
  {
    if b == "" {
      assert a + b == a;
    } else {
      assert (a + b)[..|a + b| - 1] == a + b[..|b| - 1];
      SqueezeJoin(a, b[..|b| - 1]);
    }
  }

  lemma {:induction false} ConcatJoin(a: seq<string>, b: seq<string>)
    ensures Concat(a + b) == Concat(a) + Concat(b)
  {
    if b == [] {
      assert a + b == a;
    } else {
      assert (a + b)[..|a + b| - 1] == a + b[..|b| - 1];
      ConcatJoin(a, b[..|b| - 1]);
    }
  }

  predicate AllSpace(s: string) {
    forall i :: 0 <= i < |s| ==> IsSpace(s[i])
  }

  lemma {:induction false} SpaceSqueezes(s: string)
    requires AllSpace(s)
    ensures Squeeze(s) == ""
  {
    if s != "" { SpaceSqueezes(s[..|s| - 1]); }
  }

  /** What the parts of a text show, white space aside. */
  function Shown(parts: seq<string>): string { Squeeze(Concat(parts)) }

  lemma ShownJoin(a: seq<string>, b: seq<string>)
    ensures Shown(a + b) == Shown(a) + Shown(b)
  {
    ConcatJoin(a, b);
    SqueezeJoin(Concat(a), Concat(b));
  }

  lemma ConcatOne(s: string)
    ensures Concat([s]) == s
  {
    assert [s][..0] == [];
    assert Concat([]) == "";
  }

  lemma ShownOne(s: string)
    ensures Shown([s]) == Squeeze(s)
  {
    ConcatOne(s);
  }

  lemma ShownSnoc(parts: seq<string>, s: string)
    ensures Shown(parts + [s]) == Shown(parts) + Squeeze(s)
  {
    ShownJoin(parts, [s]);
    ShownOne(s);
  }

  lemma ShownLast(parts: seq<string>)
    requires parts != []
    ensures Shown(parts) == Shown(parts[..|parts| - 1]) + Squeeze(parts[|parts| - 1])
  {
    assert parts == parts[..|parts| - 1] + [parts[|parts| - 1]];
    ShownSnoc(parts[..|parts| - 1], parts[|parts| - 1]);
  }

  // ---- Trimming -------------------------------------------------------------------------------

  /** Not empty, and with white space at neither end. */
  predicate Trimmed(s: string) {
    s != "" && !IsSpace(s[0]) && !IsSpace(s[|s| - 1])
  }

  /** A strip takes white space off both ends and nothing else. */
  lemma StripTakesSpace(s: string) returns (i: nat, j: nat)
    ensures i <= j <= |s| && Strip(s) == s[i..j] && AllSpace(s[..i]) && AllSpace(s[j..])
    ensures Strip(s) == "" || Trimmed(Strip(s))
  {
    i := StartTakesSpace(s);
    var k := EndTakesSpace(StripStart(s));
    j := i + k;
    assert s[i..][..k] == s[i..j] && s[i..][k..] == s[j..];
    StripStartStops(s);
    if StripStart(s) != "" { StripEndStops(StripStart(s)); }
  }

  lemma {:induction false} StartTakesSpace(s: string) returns (i: nat)
    ensures i <= |s| && StripStart(s) == s[i..] && AllSpace(s[..i])
  {
    i := 0;
    if s != "" && IsSpace(s[0]) {
      var k := StartTakesSpace(s[1..]);
      i := k + 1;
      assert s[1..][k..] == s[i..];
      forall m | 0 <= m < i ensures IsSpace(s[m]) { if m > 0 { assert s[1..][..k][m - 1] == s[m]; } }
    }
  }

  lemma {:induction false} EndTakesSpace(s: string) returns (j: nat)
    ensures j <= |s| && StripEnd(s) == s[..j] && AllSpace(s[j..])
  {
    j := |s|;
    if s != "" && IsSpace(s[|s| - 1]) {
      j := EndTakesSpace(s[..|s| - 1]);
      assert s[..|s| - 1][..j] == s[..j];
      forall m | 0 <= m < |s| - j ensures IsSpace(s[j..][m]) {
        if m < |s| - 1 - j { assert s[..|s| - 1][j..][m] == s[j..][m]; }
      }
    }
  }

  lemma SqueezeStrip(s: string)
    ensures Squeeze(Strip(s)) == Squeeze(s)
  {
    var i, j := StripTakesSpace(s);
    assert s == s[..i] + (s[i..j] + s[j..]);
    SqueezeJoin(s[..i], s[i..j] + s[j..]);
    SqueezeJoin(s[i..j], s[j..]);
    SpaceSqueezes(s[..i]);
    SpaceSqueezes(s[j..]);
  }

  /** The parts that are not blank, stripped. */
  function Stripped(parts: seq<string>): seq<string> {
    if parts == [] then [] else
    var n := |parts| - 1;
    Stripped(parts[..n]) + if Strip(parts[n]) == "" then [] else [Strip(parts[n])]
  }

  lemma {:induction false} StrippedShows(parts: seq<string>)
    ensures Shown(Stripped(parts)) == Shown(parts)
  {
    if parts != [] {
      var n := |parts| - 1;
      var before, s := Stripped(parts[..n]), Strip(parts[n]);
      StrippedShows(parts[..n]);
      assert parts == parts[..n] + [parts[n]];
      ShownSnoc(parts[..n], parts[n]);
      SqueezeStrip(parts[n]);
      if s == "" { assert before + [] == before; } else { ShownSnoc(before, s); }
    }
  }

  lemma {:induction false} StrippedAreTrimmed(parts: seq<string>)
    ensures forall s :: s in Stripped(parts) ==> Trimmed(s)
  {
    if parts != [] {
      StrippedAreTrimmed(parts[..|parts| - 1]);
      var i, j := StripTakesSpace(parts[|parts| - 1]);
    }
  }

  // ---- The three ways to split ------------------------------------------------------------------

  function Whole(parts: seq<string>, last: string): seq<string> {
    if last == "" then parts else parts + [last]
  }

  /** Splitting at white space: the words before the end, and the word it ends in. */
  function WordScan(s: string): (seq<string>, string) {
    if s == "" then ([], "") else
    var (done, word) := WordScan(s[..|s| - 1]);
    var c := s[|s| - 1];
    if IsSpace(c) then (Whole(done, word), "") else (done, word + [c])
  }

  function Words(s: string): seq<string> {
    var (done, word) := WordScan(s);
    Whole(done, word)
  }

  /** Splitting after a full stop, exclamation or question mark, at the white space there: the
      sentences done, the one begun, and whether the text ends in such a gap. */
  function SentenceScan(s: string): (seq<string>, string, bool) {
    if s == "" then ([], "", false) else
    var (done, cur, gap) := SentenceScan(s[..|s| - 1]);
    var c := s[|s| - 1];
    if IsSpace(c) && gap then (done, cur, true)
    else if IsSpace(c) && cur != "" && cur[|cur| - 1] in ".!?" then (done + [cur], "", true)
    else (done, cur + [c], false)
  }

  function Sentences(s: string): seq<string> {
    var (done, cur, _) := SentenceScan(s);
    done + [cur]
  }

  function Newlines(s: string): nat {
    if s == "" then 0 else Newlines(s[..|s| - 1]) + if s[|s| - 1] == '\n' then 1 else 0
  }

  /** Up to the first newline, and after the last. */
  function Lead(s: string): string {
    if s == "" || s[0] == '\n' then "" else [s[0]] + Lead(s[1..])
  }

  function Rest(s: string): string {
    if s == "" || s[|s| - 1] == '\n' then "" else Rest(s[..|s| - 1]) + [s[|s| - 1]]
  }

  /** Splitting at blank lines: the paragraphs done, the one begun, and the white space it ends in,
      of which nothing between its first and its last newline is kept if there are two. */
  function ParagraphScan(s: string): (seq<string>, string, string) {
    if s == "" then ([], "", "") else
    var (done, cur, gap) := ParagraphScan(s[..|s| - 1]);
    var c := s[|s| - 1];
    if IsSpace(c) then (done, cur, gap + [c])
    else if Newlines(gap) >= 2 then (done + [cur + Lead(gap)], Rest(gap) + [c], "")
    else (done, cur + gap + [c], "")
  }

  function Paragraphs(s: string): seq<string> {
    var (done, cur, gap) := ParagraphScan(s);
    if Newlines(gap) >= 2 then done + [cur + Lead(gap), Rest(gap)] else done + [cur + gap]
  }

  // ---- Nothing but white space is dropped at a split -----------------------------------------------

  lemma SqueezeSnoc(s: string, c: char)
    ensures Squeeze(s + [c]) == Squeeze(s) + if IsSpace(c) then "" else [c]
  {
    assert (s + [c])[..|s|] == s;
  }

  lemma WholeShows(parts: seq<string>, last: string)
    ensures Shown(Whole(parts, last)) == Shown(parts) + Squeeze(last)
  {
    if last == "" { assert Shown(parts) + "" == Shown(parts); } else { ShownSnoc(parts, last); }
  }

  lemma {:induction false} WordScanShows(s: string)
    ensures var (done, word) := WordScan(s);
            && Shown(done) + Squeeze(word) == Squeeze(s)
            && (forall w :: w in done ==> Solid(w)) && (word != "" ==> Solid(word))
  {
    if s != "" {
      var n := |s| - 1;
      var (done, word) := WordScan(s[..n]);
      WordScanShows(s[..n]);
      if IsSpace(s[n]) {
        WholeShows(done, word);
        assert Shown(Whole(done, word)) + "" == Squeeze(s[..n]) == Squeeze(s[..n]) + "";
      } else {
        SqueezeSnoc(word, s[n]);
        Regroup(Shown(done), Squeeze(word), [s[n]]);
      }
    }
  }

  /** A word: not empty, and without white space. */
  predicate Solid(w: string) {
    w != "" && forall i :: 0 <= i < |w| ==> !IsSpace(w[i])
  }

  lemma WordsShow(s: string)
    ensures Shown(Words(s)) == Squeeze(s) && forall w :: w in Words(s) ==> Solid(w)
  {
    var (done, word) := WordScan(s);
    WordScanShows(s);
    WholeShows(done, word);
  }

  lemma {:induction false} SentenceScanShows(s: string)
    ensures var (done, cur, _) := SentenceScan(s); Shown(done) + Squeeze(cur) == Squeeze(s)
  {
    if s != "" {
      var n := |s| - 1;
      var (done, cur, gap) := SentenceScan(s[..n]);
      SentenceScanShows(s[..n]);
      ShownSnoc(done, cur);
      SqueezeSnoc(cur, s[n]);
      Regroup(Shown(done), Squeeze(cur), if IsSpace(s[n]) then "" else [s[n]]);
      assert Squeeze(s[..n]) + "" == Squeeze(s[..n]);
    }
  }

  lemma SentencesShow(s: string)
    ensures Shown(Sentences(s)) == Squeeze(s)
  {
    var (done, cur, _) := SentenceScan(s);
    SentenceScanShows(s);
    ShownSnoc(done, cur);
  }

  lemma {:induction false} LeadIsSpace(s: string)
    requires AllSpace(s)
    ensures AllSpace(Lead(s)) && AllSpace(Rest(s))
  {
    if s != "" {
      LeadIsSpace(s[1..]);
      LeadIsSpace(s[..|s| - 1]);
    }
  }

  lemma SpaceAround(a: string, gap: string, b: string)
    requires AllSpace(gap)
    ensures Squeeze(a + gap) == Squeeze(a) && Squeeze(gap + b) == Squeeze(b)
  {
    SqueezeJoin(a, gap);
    SqueezeJoin(gap, b);
    SpaceSqueezes(gap);
  }

  lemma SpaceThenOne(gap: string, c: char)
    requires AllSpace(gap) && !IsSpace(c)
    ensures Squeeze(gap + [c]) == [c]
  {
    SqueezeSnoc(gap, c);
    SpaceSqueezes(gap);
  }

  /** One more character that is no white space, after a gap that is kept. */
  lemma ParagraphGoesOn(done: seq<string>, cur: string, gap: string, c: char)
    requires AllSpace(gap) && !IsSpace(c)
    ensures Shown(done) + Squeeze(cur + gap + [c]) == Shown(done) + Squeeze(cur) + [c]
  {
    SqueezeSnoc(cur + gap, c);
    SpaceAround(cur, gap, "");
  }

  /** And after one at which a paragraph ends. */
  lemma ParagraphEnds(done: seq<string>, cur: string, gap: string, c: char)
    requires AllSpace(gap) && !IsSpace(c)
    ensures Shown(done + [cur + Lead(gap)]) + Squeeze(Rest(gap) + [c]) == Shown(done) + Squeeze(cur) + [c]
  {
    LeadIsSpace(gap);
    SpaceAround(cur, Lead(gap), "");
    SpaceThenOne(Rest(gap), c);
    ShownSnoc(done, cur + Lead(gap));
  }

  lemma {:induction false} ParagraphScanShows(s: string)
    ensures var (done, cur, gap) := ParagraphScan(s);
            AllSpace(gap) && Shown(done) + Squeeze(cur) == Squeeze(s)
  {
    if s != "" {
      var n := |s| - 1;
      var (done, cur, gap) := ParagraphScan(s[..n]);
      ParagraphScanShows(s[..n]);
      if IsSpace(s[n]) {
        assert Squeeze(s[..n]) + "" == Squeeze(s[..n]);
      } else {
        if Newlines(gap) >= 2 { ParagraphEnds(done, cur, gap, s[n]); } else { ParagraphGoesOn(done, cur, gap, s[n]); }
      }
    }
  }

  lemma ParagraphsShow(s: string)
    ensures Shown(Paragraphs(s)) == Squeeze(s)
  {
    var (done, cur, gap) := ParagraphScan(s);
    ParagraphScanShows(s);
    SpaceAround(cur, gap, "");
    LeadIsSpace(gap);
    SpaceAround(cur, Lead(gap), "");
    SpaceSqueezes(Rest(gap));
    ShownSnoc(done, cur + gap);
    ShownSnoc(done, cur + Lead(gap));
    ShownSnoc(done + [cur + Lead(gap)], Rest(gap));
    assert done + [cur + Lead(gap)] + [Rest(gap)] == done + [cur + Lead(gap), Rest(gap)];
  }

  // ---- Packing ------------------------------------------------------------------------------------------

  datatype Pack = Pack(parts: seq<string>, buf: string)

  /** The next item joins the buffer if both fit, else starts a new one; one that is too long for
      any part comes in pieces of its own. */
  function PackOne(p: Pack, item: string, pieces: seq<string>, max: nat): Pack {
    if |item| > max then Pack(Whole(p.parts, p.buf) + pieces, "") else
    var candidate := if p.buf == "" then item else p.buf + " " + item;
    if |candidate| <= max then Pack(p.parts, candidate) else Pack(p.parts + [p.buf], item)
  }

  function Packed(p: Pack): seq<string> { Whole(p.parts, p.buf) }

  predicate Fits(s: string, max: nat) { Trimmed(s) && |s| <= max }

  predicate AllFit(parts: seq<string>, max: nat) {
    forall i :: 0 <= i < |parts| ==> Fits(parts[i], max)
  }

  lemma AllFitJoin(a: seq<string>, b: seq<string>, max: nat)
    requires AllFit(a, max) && AllFit(b, max)
    ensures AllFit(a + b, max)
  {
  }

  lemma WholeFits(parts: seq<string>, last: string, max: nat)
    requires AllFit(parts, max) && (last != "" ==> Fits(last, max))
    ensures AllFit(Whole(parts, last), max)
  {
  }

  /** Parts and buffer are trimmed and no longer than the limit, and show this much. */
  predicate Packs(p: Pack, max: nat, shown: string) {
    && AllFit(p.parts, max)
    && (p.buf != "" ==> Fits(p.buf, max))
    && Shown(p.parts) + Squeeze(p.buf) == shown
  }

  lemma PackOneKeeps(p: Pack, item: string, pieces: seq<string>, max: nat, shown: string)
    requires Packs(p, max, shown) && Trimmed(item)
    requires |item| > max ==> Shown(pieces) == Squeeze(item) && AllFit(pieces, max)
    ensures Packs(PackOne(p, item, pieces, max), max, shown + Squeeze(item))
  {
    if |item| > max {
      WholeShows(p.parts, p.buf);
      WholeFits(p.parts, p.buf, max);
      ShownJoin(Whole(p.parts, p.buf), pieces);
      AllFitJoin(Whole(p.parts, p.buf), pieces, max);
    } else {
      PackFitting(p, item, max, shown);
    }
  }

  lemma JoinedFits(a: string, b: string, max: nat)
    requires Trimmed(a) && Trimmed(b) && |a| + 1 + |b| <= max
    ensures Fits(a + " " + b, max)
  {
    var s := a + " " + b;
    assert s[0] == a[0] && s[|s| - 1] == b[|b| - 1];
  }

  lemma JoinedShows(a: string, b: string)
    ensures Squeeze(a + " " + b) == Squeeze(a) + Squeeze(b)
  {
    SpaceAround(a, " ", "");
    SqueezeJoin(a + " ", b);
  }

  lemma NextPartFits(parts: seq<string>, buf: string, max: nat)
    requires AllFit(parts, max) && Fits(buf, max)
    ensures AllFit(parts + [buf], max)
  {
    AllFitJoin(parts, [buf], max);
  }

  lemma BufferGrows(p: Pack, item: string, max: nat, shown: string)
    requires Packs(p, max, shown) && Trimmed(item) && p.buf != "" && |p.buf| + 1 + |item| <= max
    ensures Packs(Pack(p.parts, p.buf + " " + item), max, shown + Squeeze(item))
  {
    JoinedFits(p.buf, item, max);
    JoinedShows(p.buf, item);
    Regroup(Shown(p.parts), Squeeze(p.buf), Squeeze(item));
  }

  lemma PackFitting(p: Pack, item: string, max: nat, shown: string)
    requires Packs(p, max, shown) && Fits(item, max)
    ensures Packs(PackOne(p, item, [], max), max, shown + Squeeze(item))
  {
    if p.buf == "" {
      assert Shown(p.parts) + Squeeze("") == Shown(p.parts);
    } else if |p.buf| + 1 + |item| <= max {
      BufferGrows(p, item, max, shown);
    } else {
      NextPartFits(p.parts, p.buf, max);
      ShownSnoc(p.parts, p.buf);
    }
  }

  lemma PackedShow(p: Pack, max: nat, shown: string)
    requires Packs(p, max, shown)
    ensures Shown(Packed(p)) == shown && AllFit(Packed(p), max)
  {
    WholeShows(p.parts, p.buf);
    WholeFits(p.parts, p.buf, max);
  }

  // ---- Words, windows, sentences, paragraphs -----------------------------------------------------------------

  function Windows(word: string, max: nat): seq<string>
    requires max > 0
  {
    if |word| <= max then Whole([], word) else [word[..max]] + Windows(word[max..], max)
  }

  lemma SolidFits(word: string, max: nat)
    requires Solid(word) && |word| <= max
    ensures Windows(word, max) == [word] && AllFit([word], max)
  {
    assert [] + [word] == [word];
  }

  lemma SolidSplits(word: string, k: nat)
    requires Solid(word) && 0 < k < |word|
    ensures Solid(word[..k]) && Solid(word[k..])
  {
    forall i | 0 <= i < |word| - k ensures !IsSpace(word[k..][i]) { assert word[k..][i] == word[k + i]; }
  }

  lemma SqueezeSplits(s: string, k: nat)
    requires k <= |s|
    ensures Squeeze(s) == Squeeze(s[..k]) + Squeeze(s[k..])
  {
    assert s == s[..k] + s[k..];
    SqueezeJoin(s[..k], s[k..]);
  }

  lemma OneMorePart(first: string, parts: seq<string>, max: nat)
    requires Fits(first, max) && AllFit(parts, max)
    ensures Shown([first] + parts) == Squeeze(first) + Shown(parts) && AllFit([first] + parts, max)
  {
    ShownJoin([first], parts);
    ShownOne(first);
  }

  lemma {:induction false} WindowsShow(word: string, max: nat)
    requires max > 0 && Solid(word)
    ensures Shown(Windows(word, max)) == Squeeze(word) && AllFit(Windows(word, max), max)
    decreases |word|
  {
    if |word| <= max {
      SolidFits(word, max);
      ShownOne(word);
    } else {
      SolidSplits(word, max);
      SqueezeSplits(word, max);
      WindowsShow(word[max..], max);
      OneMorePart(word[..max], Windows(word[max..], max), max);
    }
  }

  function WordPack(words: seq<string>, max: nat): Pack
    requires max > 0
  {
    if words == [] then Pack([], "") else
    var n := |words| - 1;
    PackOne(WordPack(words[..n], max), words[n], Windows(words[n], max), max)
  }

  function HardParts(s: string, max: nat): seq<string>
    requires max > 0
  {
    Packed(WordPack(Words(s), max))
  }

  lemma EmptyPacks(max: nat)
    ensures Packs(Pack([], ""), max, "")
  {
  }

  lemma {:induction false} WordPackShows(words: seq<string>, max: nat)
    requires max > 0 && forall w :: w in words ==> Solid(w)
    ensures Packs(WordPack(words, max), max, Shown(words))
  {
    if words == [] {
      EmptyPacks(max);
    } else {
      var n := |words| - 1;
      WordPackShows(words[..n], max);
      WindowsShow(words[n], max);
      PackOneKeeps(WordPack(words[..n], max), words[n], Windows(words[n], max), max, Shown(words[..n]));
      ShownLast(words);
    }
  }

  lemma HardPartsShow(s: string, max: nat)
    requires max > 0
    ensures Shown(HardParts(s, max)) == Squeeze(s) && AllFit(HardParts(s, max), max)
  {
    WordsShow(s);
    WordPackShows(Words(s), max);
    PackedShow(WordPack(Words(s), max), max, Squeeze(s));
  }

  function SentencePack(sentences: seq<string>, max: nat): Pack
    requires max > 0
  {
    if sentences == [] then Pack([], "") else
    var n := |sentences| - 1;
    PackOne(SentencePack(sentences[..n], max), sentences[n], HardParts(sentences[n], max), max)
  }

  function OversizedParts(s: string, max: nat): seq<string>
    requires max > 0
  {
    Packed(SentencePack(Stripped(Sentences(s)), max))
  }

  lemma {:induction false} SentencePackShows(sentences: seq<string>, max: nat)
    requires max > 0 && forall s :: s in sentences ==> Trimmed(s)
    ensures Packs(SentencePack(sentences, max), max, Shown(sentences))
  {
    if sentences == [] {
      EmptyPacks(max);
    } else {
      var n := |sentences| - 1;
      SentencePackShows(sentences[..n], max);
      HardPartsShow(sentences[n], max);
      PackOneKeeps(SentencePack(sentences[..n], max), sentences[n], HardParts(sentences[n], max), max,
                   Shown(sentences[..n]));
      ShownLast(sentences);
    }
  }

  lemma OversizedPartsShow(s: string, max: nat)
    requires max > 0
    ensures Shown(OversizedParts(s, max)) == Squeeze(s) && AllFit(OversizedParts(s, max), max)
  {
    SentencesShow(s);
    StrippedShows(Sentences(s));
    StrippedAreTrimmed(Sentences(s));
    SentencePackShows(Stripped(Sentences(s)), max);
    PackedShow(SentencePack(Stripped(Sentences(s)), max), max, Squeeze(s));
  }

  function ParagraphParts(p: string, max: nat): seq<string>
    requires max > 0
  {
    if |p| <= max then [p] else OversizedParts(p, max)
  }

  lemma ParagraphShows(p: string, max: nat)
    requires max > 0 && Trimmed(p)
    ensures Shown(ParagraphParts(p, max)) == Squeeze(p) && AllFit(ParagraphParts(p, max), max)
  {
    if |p| <= max { ShownOne(p); } else { OversizedPartsShow(p, max); }
  }

  function Flatten(lists: seq<seq<string>>): seq<string> {
    if lists == [] then [] else Flatten(lists[..|lists| - 1]) + lists[|lists| - 1]
  }

  function PartsOfAll(paragraphs: seq<string>, max: nat): seq<seq<string>>
    requires max > 0
  {
    seq(|paragraphs|, i requires 0 <= i < |paragraphs| => ParagraphParts(paragraphs[i], max))
  }

  /** A text broken into passages, each no longer than the limit. */
  function Segments(s: string, max: nat): seq<string>
    requires max > 0
  {
    Flatten(PartsOfAll(Stripped(Paragraphs(s)), max))
  }

  /** One more text, in parts. */
  lemma FlattenGrows(shown: string, flat: seq<string>, whole: string, parts: seq<string>, max: nat)
    requires Shown(flat) == shown && AllFit(flat, max) && Shown(parts) == Squeeze(whole) && AllFit(parts, max)
    ensures Shown(flat + parts) == shown + Squeeze(whole) && AllFit(flat + parts, max)
  {
    ShownJoin(flat, parts);
    AllFitJoin(flat, parts, max);
  }

  lemma {:induction false} FlattenShows(wholes: seq<string>, lists: seq<seq<string>>, max: nat)
    requires |lists| == |wholes|
    requires forall i :: 0 <= i < |lists| ==> Shown(lists[i]) == Squeeze(wholes[i]) && AllFit(lists[i], max)
    ensures Shown(Flatten(lists)) == Shown(wholes) && AllFit(Flatten(lists), max)
  {
    if lists != [] {
      var n := |lists| - 1;
      FlattenShows(wholes[..n], lists[..n], max);
      FlattenGrows(Shown(wholes[..n]), Flatten(lists[..n]), wholes[n], lists[n], max);
      ShownLast(wholes);
    }
  }

  lemma SegmentsOfShow(paragraphs: seq<string>, max: nat)
    requires max > 0 && forall s :: s in paragraphs ==> Trimmed(s)
    ensures Shown(Flatten(PartsOfAll(paragraphs, max))) == Shown(paragraphs)
    ensures AllFit(Flatten(PartsOfAll(paragraphs, max)), max)
  {
    forall i | 0 <= i < |paragraphs|
      ensures Shown(PartsOfAll(paragraphs, max)[i]) == Squeeze(paragraphs[i])
      ensures AllFit(PartsOfAll(paragraphs, max)[i], max)
    {
      ParagraphShows(paragraphs[i], max);
    }
    FlattenShows(paragraphs, PartsOfAll(paragraphs, max), max);
  }

  /** The passages, in order, are the text up to white space, and all fit the limit. */
  lemma SegmentsShow(s: string, max: nat)
    requires max > 0
    ensures Shown(Segments(s, max)) == Squeeze(s) && AllFit(Segments(s, max), max)
  {
    ParagraphsShow(s);
    StrippedShows(Paragraphs(s));
    StrippedAreTrimmed(Paragraphs(s));
    SegmentsOfShow(Stripped(Paragraphs(s)), max);
  }
}
