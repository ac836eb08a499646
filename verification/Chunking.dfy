/** Splitting a document into overlapping pieces for storage: every passage it is broken into is
    whole in some piece. */
module Chunking {
  import opened Sequences
  import opened Strings
  import opened Passages

  /** The sizes a store splits by. */
  datatype Sizes = Sizes(max: int, overlap: int, min: int)

  function MaxOf(z: Sizes): (max: nat)
    ensures max > 0
  {
    if z.max < 1 then 1 else z.max
  }

  function OverlapOf(z: Sizes): (o: nat)
    ensures o < MaxOf(z)
  {
    if z.overlap < 0 then 0 else if z.overlap > MaxOf(z) - 1 then MaxOf(z) - 1 else z.overlap
  }

  function MinOf(z: Sizes): nat {
    if z.min < 0 then 0 else if z.min > MaxOf(z) then MaxOf(z) else z.min
  }

  // ---- Packing passages into pieces ------------------------------------------------------------

  function FindSpace(s: string): (i: nat)
    ensures i <= |s| && (i < |s| ==> s[i] == ' ')
  {
    if s == "" || s[0] == ' ' then 0 else 1 + FindSpace(s[1..])
  }

  /** The end of a piece that the next one repeats, from a word's start on; none of a piece no
      longer than the overlap. */
  function OverlapTail(piece: string, overlap: nat): string {
    if overlap == 0 || |piece| <= overlap then "" else
    var tail := piece[|piece| - overlap..];
    var space := FindSpace(tail);
    Strip(if space < |tail| then tail[space + 1..] else tail)
  }

  /** The pieces closed so far and the one being filled. */
  datatype Filling = Filling(pieces: seq<string>, cur: string)

  function FillOne(f: Filling, passage: string, z: Sizes): Filling {
    var candidate := if f.cur == "" then passage else f.cur + "\n" + passage;
    if f.cur == "" || |candidate| <= MaxOf(z) then Filling(f.pieces, candidate) else
    var tail := OverlapTail(f.cur, OverlapOf(z));
    Filling(f.pieces + [Strip(f.cur)], if tail == "" then passage else tail + "\n" + passage)
  }

  function Filled(passages: seq<string>, z: Sizes): Filling {
    if passages == [] then Filling([], "")
    else FillOne(Filled(passages[..|passages| - 1], z), passages[|passages| - 1], z)
  }

  function Closed(f: Filling): seq<string> { Whole(f.pieces, Strip(f.cur)) }

  /** A last piece that is too short joins the one before it. */
  function FoldedBack(pieces: seq<string>, z: Sizes): seq<string> {
    var n := |pieces|;
    if n >= 2 && |pieces[n - 1]| < MinOf(z)
    then pieces[..n - 2] + [Strip(pieces[n - 2] + "\n" + pieces[n - 1])]
    else pieces
  }

  /** What a text is broken into before it is packed; one that fits is a single passage. */
  function PassagesOf(text: string, z: Sizes): seq<string> {
    var s := Strip(text);
    if s == "" then [] else if |s| <= MaxOf(z) then [s] else Segments(s, MaxOf(z))
  }

  function Pieces(text: string, z: Sizes): seq<string> {
    var s := Strip(text);
    if s == "" then [] else if |s| <= MaxOf(z) then [s]
    else FoldedBack(Closed(Filled(Segments(s, MaxOf(z)), z)), z)
  }

  // ---- Every passage is whole in some piece --------------------------------------------------------

  predicate HasAt(s: string, t: string, i: int) {
    0 <= i <= |s| - |t| && s[i..i + |t|] == t
  }

  ghost predicate Contains(s: string, t: string) {
    exists i :: HasAt(s, t, i)
  }

  ghost predicate Covers(pieces: seq<string>, t: string) {
    exists j :: 0 <= j < |pieces| && Contains(pieces[j], t)
  }

  lemma ContainsWithin(before: string, s: string, after: string, t: string)
    requires Contains(s, t)
    ensures Contains(before + s + after, t)
  {
    var i :| HasAt(s, t, i);
    assert HasAt(before + s + after, t, |before| + i);
  }

  lemma ContainsItself(t: string)
    ensures Contains(t, t)
  {
    assert HasAt(t, t, 0);
  }

  /** A strip never cuts into a passage: its ends are no white space. */
  lemma StripKeeps(s: string, t: string)
    requires Contains(s, t) && Trimmed(t)
    ensures Contains(Strip(s), t)
  {
    var k :| HasAt(s, t, k);
    var i, j := StripTakesSpace(s);
    NotInSpace(s, t, k, i, j);
    SliceOfSlice(s, i, j, k, k + |t|);
    assert HasAt(s[i..j], t, k - i);
  }

  lemma SliceOfSlice(s: string, i: nat, j: nat, a: nat, b: nat)
    requires i <= a <= b <= j <= |s|
    ensures s[i..j][a - i..b - i] == s[a..b]
  {
    var x, y := s[i..j][a - i..b - i], s[a..b];
    assert |x| == |y|;
    forall m | 0 <= m < |y| ensures x[m] == y[m] { assert x[m] == s[i..j][a - i + m] == s[a + m]; }
  }

  lemma NotInSpace(s: string, t: string, k: int, i: nat, j: nat)
    requires HasAt(s, t, k) && Trimmed(t) && i <= j <= |s| && AllSpace(s[..i]) && AllSpace(s[j..])
    ensures i <= k && k + |t| <= j
  {
    var last := k + |t| - 1;
    assert s[k] == s[k..k + |t|][0] == t[0] && s[last] == s[k..k + |t|][|t| - 1] == t[|t| - 1];
    forall m | 0 <= m < i ensures IsSpace(s[m]) { assert s[..i][m] == s[m]; }
    forall m | j <= m < |s| ensures IsSpace(s[m]) { assert s[j..][m - j] == s[m]; }
  }

  lemma CoversGrows(pieces: seq<string>, more: seq<string>, t: string)
    requires Covers(pieces, t) || Covers(more, t)
    ensures Covers(pieces + more, t)
  {
    if j :| 0 <= j < |pieces| && Contains(pieces[j], t) {
      assert (pieces + more)[j] == pieces[j];
    } else {
      var j :| 0 <= j < |more| && Contains(more[j], t);
      assert (pieces + more)[|pieces| + j] == more[j];
    }
  }

  /** The passage is in a closed piece or in the one being filled. */
  ghost predicate Holds(f: Filling, t: string) {
    Covers(f.pieces, t) || Contains(f.cur, t)
  }

  lemma FillOneKeeps(f: Filling, passage: string, z: Sizes, t: string)
    requires Trimmed(t) && Holds(f, t)
    ensures Holds(FillOne(f, passage, z), t)
  {
    if Contains(f.cur, t) {
      ContainsWithin("", f.cur, "\n" + passage, t);
      assert "" + f.cur + ("\n" + passage) == f.cur + "\n" + passage;
      StripKeeps(f.cur, t);
      assert [Strip(f.cur)][0] == Strip(f.cur);
    }
    if Covers(f.pieces, t) || Covers([Strip(f.cur)], t) { CoversGrows(f.pieces, [Strip(f.cur)], t); }
  }

  lemma FillOneTakes(f: Filling, passage: string, z: Sizes)
    ensures Holds(FillOne(f, passage, z), passage)
  {
    ContainsItself(passage);
    var tail := OverlapTail(f.cur, OverlapOf(z));
    ContainsWithin(f.cur + "\n", passage, "", passage);
    ContainsWithin(tail + "\n", passage, "", passage);
    assert f.cur + "\n" + passage + "" == f.cur + "\n" + passage;
    assert tail + "\n" + passage + "" == tail + "\n" + passage;
  }

  lemma {:induction false} FilledHolds(passages: seq<string>, z: Sizes, i: nat)
    requires i < |passages| && Trimmed(passages[i])
    ensures Holds(Filled(passages, z), passages[i])
  {
    var n := |passages| - 1;
    if i == n {
      FillOneTakes(Filled(passages[..n], z), passages[n], z);
    } else {
      FilledHolds(passages[..n], z, i);
      FillOneKeeps(Filled(passages[..n], z), passages[n], z, passages[i]);
    }
  }

  lemma ClosedCovers(f: Filling, t: string)
    requires Trimmed(t) && Holds(f, t)
    ensures Covers(Closed(f), t)
  {
    if Contains(f.cur, t) {
      StripKeeps(f.cur, t);
      assert [Strip(f.cur)][0] == Strip(f.cur) && Strip(f.cur) != "";
    }
    if Strip(f.cur) != "" { CoversGrows(f.pieces, [Strip(f.cur)], t); }
  }

  lemma FoldingBackCovers(pieces: seq<string>, z: Sizes, t: string)
    requires Trimmed(t) && Covers(pieces, t)
    ensures Covers(FoldedBack(pieces, z), t)
  {
    var n := |pieces|;
    if n >= 2 && |pieces[n - 1]| < MinOf(z) {
      var j :| 0 <= j < n && Contains(pieces[j], t);
      var a, b := pieces[n - 2], pieces[n - 1];
      if j < n - 2 {
        assert FoldedBack(pieces, z)[j] == pieces[j];
      } else {
        if j == n - 2 { ContainsWithin("", a, "\n" + b, t); } else { ContainsWithin(a + "\n", b, "", t); }
        assert "" + a + ("\n" + b) == a + "\n" + b == (a + "\n") + b + "";
        StripKeeps(a + "\n" + b, t);
        assert FoldedBack(pieces, z)[n - 2] == Strip(a + "\n" + b);
      }
    }
  }

  /** The passages are the text up to white space, and each of them is whole in some piece: a
      splitting, however it overlaps or folds, drops nothing. */
  lemma PiecesHoldTheText(text: string, z: Sizes)
    ensures Shown(PassagesOf(text, z)) == Squeeze(text)
    ensures forall i :: 0 <= i < |PassagesOf(text, z)| ==>
              Fits(PassagesOf(text, z)[i], MaxOf(z)) && Covers(Pieces(text, z), PassagesOf(text, z)[i])
  {
    var s := Strip(text);
    SqueezeStrip(text);
    var lo, hi := StripTakesSpace(text);
    if s == "" {
    } else if |s| <= MaxOf(z) {
      ShownOne(s);
      ContainsItself(s);
      assert Pieces(text, z)[0] == s;
    } else {
      var passages := Segments(s, MaxOf(z));
      SegmentsShow(s, MaxOf(z));
      forall i | 0 <= i < |passages| ensures Covers(Pieces(text, z), passages[i]) {
        FilledHolds(passages, z, i);
        ClosedCovers(Filled(passages, z), passages[i]);
        FoldingBackCovers(Closed(Filled(passages, z)), z, passages[i]);
      }
    }
  }

  // ---- How long a piece can get ---------------------------------------------------------------------------

  lemma StripIsNoLonger(s: string)
    ensures |Strip(s)| <= |s|
  {
    var i, j := StripTakesSpace(s);
  }

  predicate Within(pieces: seq<string>, n: nat) {
    forall i :: 0 <= i < |pieces| ==> |pieces[i]| <= n
  }

  lemma {:induction false} FilledIsBounded(passages: seq<string>, z: Sizes)
    requires AllFit(passages, MaxOf(z))
    ensures var f, n := Filled(passages, z), MaxOf(z) + OverlapOf(z) + 1;
            Within(f.pieces, n) && |f.cur| <= n
  {
    if passages != [] {
      var n := |passages| - 1;
      var f := Filled(passages[..n], z);
      FilledIsBounded(passages[..n], z);
      StripIsNoLonger(f.cur);
      TailIsShort(f.cur, OverlapOf(z));
    }
  }

  lemma TailIsShort(piece: string, overlap: nat)
    ensures |OverlapTail(piece, overlap)| <= overlap
  {
    if overlap != 0 && |piece| > overlap {
      var tail := piece[|piece| - overlap..];
      var space := FindSpace(tail);
      StripIsNoLonger(if space < |tail| then tail[space + 1..] else tail);
    }
  }

  /** No piece is longer than a passage and an overlap together, but for a last one that took a
      short one in. */
  lemma PiecesAreBounded(text: string, z: Sizes)
    ensures var pieces, n := Pieces(text, z), MaxOf(z) + OverlapOf(z) + 1;
            Within(pieces, n + MinOf(z)) && (pieces != [] ==> Within(pieces[..|pieces| - 1], n))
  {
    var s := Strip(text);
    if |s| > MaxOf(z) {
      var f := Filled(Segments(s, MaxOf(z)), z);
      SegmentsShow(s, MaxOf(z));
      FilledIsBounded(Segments(s, MaxOf(z)), z);
      StripIsNoLonger(f.cur);
      FoldingIsBounded(Closed(f), z, MaxOf(z) + OverlapOf(z) + 1);
    }
  }

  lemma FoldingIsBounded(pieces: seq<string>, z: Sizes, n: nat)
    requires Within(pieces, n)
    ensures var folded := FoldedBack(pieces, z);
            Within(folded, n + MinOf(z)) && (folded != [] ==> Within(folded[..|folded| - 1], n))
  {
    var k := |pieces|;
    if k >= 2 { StripIsNoLonger(pieces[k - 2] + "\n" + pieces[k - 1]); }
  }

  // ---- The loops ---------------------------------------------------------------------------------------------

  lemma WindowsNext(word: string, j: nat, max: nat)
    requires j < |word| && max > 0
    ensures var end := if j + max < |word| then j + max else |word|;
            Windows(word[j..], max) == [word[j..end]] + Windows(word[end..], max)
  {
    var rest := word[j..];
    if j + max < |word| {
      assert rest[..max] == word[j..j + max] && rest[max..] == word[j + max..];
    } else {
      assert word[j..|word|] == rest && word[|word|..] == "";
    }
  }

  /** The windows of one word, each added to the parts. */
  method AddWindows(before: seq<string>, word: string, max: nat) returns (parts: seq<string>)
    requires max > 0
    ensures parts == before + Windows(word, max)
  {
    parts := before;
    var j := 0;
    assert word[0..] == word;
    while j < |word|
      invariant 0 <= j <= |word|
      invariant parts + Windows(word[j..], max) == before + Windows(word, max)
    {
      WindowsNext(word, j, max);
      var end := if j + max < |word| then j + max else |word|;
      Regroup(parts, [word[j..end]], Windows(word[end..], max));
      parts, j := parts + [word[j..end]], end;
    }
    assert word[j..] == "" && parts + [] == parts;
  }

  /** Words packed up to the limit; a longer one is cut into windows. */
  method HardSplit(s: string, max: nat) returns (parts: seq<string>)
    requires max > 0
    ensures parts == HardParts(s, max)
  {
    var words, buf := Words(s), "";
    parts := [];
    for i := 0 to |words|
      invariant Pack(parts, buf) == WordPack(words[..i], max)
    {
      var word := words[i];
      assert words[..i + 1][..i] == words[..i];
      if |word| > max {
        if buf != "" {
          parts, buf := parts + [buf], "";
        }
        parts := AddWindows(parts, word, max);
      } else {
        var candidate := if buf == "" then word else buf + " " + word;
        if |candidate| <= max {
          buf := candidate;
        } else {
          parts, buf := parts + [buf], word;
        }
      }
    }
    assert words[..|words|] == words;
    if buf != "" {
      parts := parts + [buf];
    }
  }

  lemma SentencePackOne(sentences: seq<string>, s: string, max: nat)
    requires max > 0
    ensures SentencePack(sentences + [s], max) == PackOne(SentencePack(sentences, max), s, HardParts(s, max), max)
  {
    assert (sentences + [s])[..|sentences|] == sentences;
  }

  lemma StrippedOne(parts: seq<string>, i: nat)
    requires i < |parts|
    ensures Stripped(parts[..i + 1])
            == if Strip(parts[i]) == "" then Stripped(parts[..i]) else Stripped(parts[..i]) + [Strip(parts[i])]
  {
    assert parts[..i + 1][..i] == parts[..i];
    assert Stripped(parts[..i]) + [] == Stripped(parts[..i]);
  }

  /** Sentences packed up to the limit; a longer one is split harder. */
  method SplitOversized(para: string, max: nat) returns (parts: seq<string>)
    requires max > 0
    ensures parts == OversizedParts(para, max)
  {
    var sentences := Sentences(para);
    var buf;
    parts, buf := PackSentences(sentences, max);
    if buf != "" {
      parts := parts + [buf];
    }
  }

  method PackSentences(sentences: seq<string>, max: nat) returns (parts: seq<string>, buf: string)
    requires max > 0
    ensures Pack(parts, buf) == SentencePack(Stripped(sentences), max)
  {
    parts, buf := [], "";
    ghost var done: seq<string> := [];
    for i := 0 to |sentences|
      invariant done == Stripped(sentences[..i]) && Pack(parts, buf) == SentencePack(done, max)
    {
      var sent := Strip(sentences[i]);
      StrippedOne(sentences, i);
      if sent != "" {
        SentencePackOne(done, sent, max);
        parts, buf := AddSentence(parts, buf, sent, max);
        done := done + [sent];
      }
    }
    assert sentences[..|sentences|] == sentences;
  }

  method AddSentence(before: seq<string>, held: string, sent: string, max: nat)
    returns (parts: seq<string>, buf: string)
    requires max > 0
    ensures Pack(parts, buf) == PackOne(Pack(before, held), sent, HardParts(sent, max), max)
  {
    parts, buf := before, held;
    if |sent| > max {
      if buf != "" {
        parts, buf := parts + [buf], "";
      }
      var pieces := HardSplit(sent, max);
      parts := parts + pieces;
    } else {
      var candidate := if buf == "" then sent else buf + " " + sent;
      if |candidate| <= max {
        buf := candidate;
      } else {
        parts, buf := parts + [buf], sent;
      }
    }
  }

  lemma FlattenOne(lists: seq<seq<string>>, more: seq<string>)
    ensures Flatten(lists + [more]) == Flatten(lists) + more
  {
    assert (lists + [more])[..|lists|] == lists;
  }

  lemma PartsOfOneMore(paragraphs: seq<string>, p: string, max: nat)
    requires max > 0
    ensures Flatten(PartsOfAll(paragraphs + [p], max)) == Flatten(PartsOfAll(paragraphs, max)) + ParagraphParts(p, max)
  {
    FlattenOne(PartsOfAll(paragraphs, max), ParagraphParts(p, max));
    assert PartsOfAll(paragraphs + [p], max) == PartsOfAll(paragraphs, max) + [ParagraphParts(p, max)];
  }

  method SplitParagraph(para: string, max: nat) returns (parts: seq<string>)
    requires max > 0
    ensures parts == ParagraphParts(para, max)
  {
    if |para| <= max {
      return [para];
    }
    parts := SplitOversized(para, max);
  }

  /** Paragraphs, and the parts of those that are too long. */
  method Segment(text: string, max: nat) returns (out: seq<string>)
    requires max > 0
    ensures out == Segments(text, max)
  {
    var paragraphs := Paragraphs(text);
    out := [];
    ghost var done: seq<string> := [];
    assert PartsOfAll(done, max) == [];
    for i := 0 to |paragraphs|
      invariant done == Stripped(paragraphs[..i]) && out == Flatten(PartsOfAll(done, max))
    {
      var para := Strip(paragraphs[i]);
      StrippedOne(paragraphs, i);
      if para != "" {
        var parts := SplitParagraph(para, max);
        PartsOfOneMore(done, para, max);
        out, done := out + parts, done + [para];
      }
    }
    assert paragraphs[..|paragraphs|] == paragraphs;
  }

  method FillNext(pieces: seq<string>, held: string, passage: string, z: Sizes)
    returns (chunks: seq<string>, cur: string)
    ensures Filling(chunks, cur) == FillOne(Filling(pieces, held), passage, z)
  {
    chunks, cur := pieces, held;
    var candidate := if cur == "" then passage else cur + "\n" + passage;
    if cur == "" || |candidate| <= MaxOf(z) {
      cur := candidate;
    } else {
      chunks := chunks + [Strip(cur)];
      var tail := OverlapTail(cur, OverlapOf(z));
      cur := if tail == "" then passage else tail + "\n" + passage;
    }
  }

  method Fill(segments: seq<string>, z: Sizes) returns (chunks: seq<string>, cur: string)
    ensures Filling(chunks, cur) == Filled(segments, z)
  {
    chunks, cur := [], "";
    for i := 0 to |segments|
      invariant Filling(chunks, cur) == Filled(segments[..i], z)
    {
      assert segments[..i + 1][..i] == segments[..i];
      chunks, cur := FillNext(chunks, cur, segments[i], z);
    }
    assert segments[..|segments|] == segments;
  }

  method FoldBack(pieces: seq<string>, z: Sizes) returns (chunks: seq<string>)
    ensures chunks == FoldedBack(pieces, z)
  {
    chunks := pieces;
    var n := |chunks|;
    if n >= 2 && |chunks[n - 1]| < MinOf(z) {
      chunks := chunks[..n - 2] + [Strip(chunks[n - 2] + "\n" + chunks[n - 1])];
    }
  }

  /** Passages packed into pieces, each but the first repeating the end of the one before it. */
  method PackPassages(segments: seq<string>, z: Sizes) returns (chunks: seq<string>)
    ensures chunks == FoldedBack(Closed(Filled(segments, z)), z)
  {
    var cur;
    chunks, cur := Fill(segments, z);
    if Strip(cur) != "" {
      chunks := chunks + [Strip(cur)];
    }
    chunks := FoldBack(chunks, z);
  }

  method ChunkText(text: string, z: Sizes) returns (chunks: seq<string>)
    ensures chunks == Pieces(text, z)
  {
    var s := Strip(text);
    if s == "" {
      return [];
    }
    if |s| <= MaxOf(z) {
      return [s];
    }
    var segments := Segment(s, MaxOf(z));
    chunks := PackPassages(segments, z);
  }
}
