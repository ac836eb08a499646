/** What a compaction's archive holds of the history it replaces. */
module CompactionArchive {
  import opened Chunking
  import opened Compaction
  import opened KnowledgeIngest
  import opened Passages
  import opened Strings
  import opened Wrappers

  /** The gate is on some piece, not on all. */
  lemma ArchivesOnSomePiece(h: seq<Msg>, w: World, keep: nat)
    requires Writes(h, w, keep) && !Archiving(h, w, keep).raised
    ensures var texts := ArchiveTexts(h, w);
            Archives(h, w, keep) <==> exists i :: 0 <= i < |texts| && LandsAt(texts, w.scrub, w.fates, i)
  {
    SomeRowIffSomeLands(ArchiveTexts(h, w), w.scrub, w.fates);
  }

  /** The archive holds every piece exactly when no piece was skipped and no write raised. */
  lemma ArchiveIsWholeIffAllLand(h: seq<Msg>, w: World, keep: nat)
    requires Writes(h, w, keep)
    ensures var texts, rows := ArchiveTexts(h, w), Archiving(h, w, keep).rows;
            && (|rows| == |texts| <==> forall i :: 0 <= i < |texts| ==> LandsAt(texts, w.scrub, w.fates, i))
            && (|rows| == |texts| ==> forall i :: 0 <= i < |texts| ==> Some(rows[i]) == Scrubbed(texts[i], w.scrub))
  {
    var texts := ArchiveTexts(h, w);
    AllRowsIffAllLand(texts, w.scrub, w.fates);
    if |Archiving(h, w, keep).rows| == |texts| {
      forall i | 0 <= i < |texts| ensures Some(Archiving(h, w, keep).rows[i]) == Scrubbed(texts[i], w.scrub) {
        RowsHoldTheirPieces(texts, w.scrub, w.fates, i);
      }
    }
  }

  /** A transcript that is archived whole, by a store that scrubs nothing from it, is all there: it
      is its passages up to white space, and each passage is whole in some row. */
  lemma WholeArchiveHoldsTheTranscript(h: seq<Msg>, w: World, keep: nat)
    requires Writes(h, w, keep) && |Archiving(h, w, keep).rows| == |ArchiveTexts(h, w)|
    requires forall t :: t in ArchiveTexts(h, w) ==> w.scrub(t) == t
    ensures var passages := PassagesOf(Transcript(h, w.clean), w.sizes);
            && Shown(passages) == Squeeze(Transcript(h, w.clean))
            && forall i :: 0 <= i < |passages| ==> Covers(Archiving(h, w, keep).rows, passages[i])
  {
    var passages, pieces := PassagesOf(Transcript(h, w.clean), w.sizes), Pieces(Transcript(h, w.clean), w.sizes);
    PiecesHoldTheText(Transcript(h, w.clean), w.sizes);
    forall i | 0 <= i < |passages| ensures Covers(Archiving(h, w, keep).rows, passages[i]) {
      ContextCovers(pieces, w.contexts, passages[i]);
      RowsCover(ArchiveTexts(h, w), w.scrub, w.fates, passages[i]);
    }
  }

  lemma ContextCovers(pieces: seq<string>, contexts: seq<string>, t: string)
    requires Covers(pieces, t)
    ensures Covers(InContext(pieces, contexts), t)
  {
    var j :| 0 <= j < |pieces| && Contains(pieces[j], t);
    if |pieces| >= 2 && j < |contexts| && contexts[j] != "" {
      ContainsWithin(contexts[j] + "\n\n", pieces[j], "", t);
      assert contexts[j] + "\n\n" + pieces[j] + "" == contexts[j] + "\n\n" + pieces[j];
    }
    assert Contains(InContext(pieces, contexts)[j], t);
  }

  lemma RowsCover(texts: seq<string>, scrub: string -> string, fates: seq<Fate>, t: string)
    requires |Ingested(texts, scrub, fates).rows| == |texts|
    requires Covers(texts, t) && Trimmed(t) && forall x :: x in texts ==> scrub(x) == x
    ensures Covers(Ingested(texts, scrub, fates).rows, t)
  {
    var j :| 0 <= j < |texts| && Contains(texts[j], t);
    RowsHoldTheirPieces(texts, scrub, fates, j);
    StripKeeps(texts[j], t);
    assert Contains(Ingested(texts, scrub, fates).rows[j], t);
  }

  // ---- What rendering drops ---------------------------------------------------------------------------

  /** The histories say the same, message by message. */
  predicate SameVoices(h: seq<Msg>, h': seq<Msg>, clean: string -> string) {
    |h| == |h'| && forall i :: 0 <= i < |h| ==> LineOf(h[i], clean) == LineOf(h'[i], clean)
  }

  lemma {:induction false} SameVoicesSameLines(h: seq<Msg>, h': seq<Msg>, clean: string -> string)
    requires SameVoices(h, h', clean)
    ensures Lines(h, clean) == Lines(h', clean)
  {
    if h != [] { SameVoicesSameLines(h[..|h| - 1], h'[..|h'| - 1], clean); }
  }

  /** Every message that says something has its line, and no line is anything else. */
  lemma {:induction false} LinesAreTheVoices(h: seq<Msg>, clean: string -> string, line: string)
    ensures line in Lines(h, clean) <==> exists i :: 0 <= i < |h| && LineOf(h[i], clean) == Some(line)
  {
    if h != [] {
      var n := |h| - 1;
      LinesAreTheVoices(h[..n], clean, line);
      forall i | 0 <= i < n ensures h[..n][i] == h[i] {}
    }
  }

  /** The histories differ in the outputs of tool results before an index, and in nothing else. */
  predicate SameButOutputs(h: seq<Msg>, h': seq<Msg>, cut: nat) {
    && |h| == |h'| && cut <= |h| && h[cut..] == h'[cut..]
    && forall i :: 0 <= i < |h| ==>
         h[i] == h'[i] || (h[i].ToolResult? && h'[i].ToolResult? && h[i].callId == h'[i].callId)
  }

  lemma {:induction false} SameBlocks(h: seq<Msg>, h': seq<Msg>, cut: nat, i: nat)
    requires SameButOutputs(h, h', cut) && i <= |h|
    ensures BlockEnd(h, i) == BlockEnd(h', i)
    decreases |h| - i
  {
    if i < |h| && h[i].ToolResult? { SameBlocks(h, h', cut, i + 1); }
  }

  lemma SameBlockIds(h: seq<Msg>, h': seq<Msg>, cut: nat, i: nat, e: nat)
    requires SameButOutputs(h, h', cut) && i <= e <= |h|
    ensures BlockIds(h, i, e) == BlockIds(h', i, e)
  {
    forall id ensures id in BlockIds(h, i, e) <==> id in BlockIds(h', i, e) {
      if k :| i <= k < e && h[k].ToolResult? && h[k].callId != "" && h[k].callId == id { assert h'[k].callId == id; }
      if k :| i <= k < e && h'[k].ToolResult? && h'[k].callId != "" && h'[k].callId == id { assert h[k].callId == id; }
    }
  }

  lemma SameCuts(h: seq<Msg>, h': seq<Msg>, keep: nat, cut: nat)
    requires SameButOutputs(h, h', cut) && IsCut(h, keep, cut)
    ensures IsCut(h', keep, cut)
  {
    var target := if keep == 0 then |h| else if |h| <= keep then 0 else |h| - keep;
    if target < |h| && h[target].ToolResult? {
      SameBlocks(h, h', cut, target);
      SameBlockIds(h, h', cut, target, BlockEnd(h, target));
      var ids := BlockIds(h, target, BlockEnd(h, target));
      forall k | 0 <= k < |h| ensures Asks(h'[k], ids) <==> Asks(h[k], ids) {}
    }
  }

  /** A tool's output ahead of the cut is lost to a rewrite, even with every piece archived: whatever
      it was, the same rows are stored and the same thread is left. */
  lemma CutToolOutputsAreLost(h: seq<Msg>, h': seq<Msg>, w: World, keep: nat, cut: nat, summary: string)
    requires SameButOutputs(h, h', cut) && IsCut(h, keep, cut)
    ensures IsCut(h', keep, cut) && [Human(summary)] + h'[cut..] == [Human(summary)] + h[cut..]
    ensures Archiving(h', w, keep) == Archiving(h, w, keep)
    ensures Rewrites(h', w, keep) <==> Rewrites(h, w, keep)
  {
    SameCuts(h, h', keep, cut);
    SameVoicesSameLines(h, h', w.clean);
  }

  // ---- A rewrite with a piece missing ------------------------------------------------------------------------

  lemma {:induction false} SqueezeKeeps(s: string, c: char)
    ensures c in Squeeze(s) <==> c in s && !IsSpace(c)
  {
    if s != "" {
      SqueezeKeeps(s[..|s| - 1], c);
      assert s == s[..|s| - 1] + [s[|s| - 1]];
    }
  }

  lemma {:induction false} SomePartHas(parts: seq<string>, c: char)
    requires c in Concat(parts)
    ensures exists i :: 0 <= i < |parts| && c in parts[i]
  {
    var n := |parts| - 1;
    if c !in parts[n] {
      SomePartHas(parts[..n], c);
      var i :| 0 <= i < n && c in parts[..n][i];
      assert c in parts[i];
    }
  }

  lemma SomePassageHas(text: string, z: Sizes, c: char) returns (i: nat)
    requires c in text && !IsSpace(c)
    ensures i < |PassagesOf(text, z)| && c in PassagesOf(text, z)[i]
  {
    var passages := PassagesOf(text, z);
    PiecesHoldTheText(text, z);
    SqueezeKeeps(text, c);
    SqueezeKeeps(Concat(passages), c);
    SomePartHas(passages, c);
    i :| 0 <= i < |passages| && c in passages[i];
  }

  lemma HasWhatItContains(s: string, t: string, c: char)
    requires Contains(s, t) && c in t
    ensures c in s
  {
    var k :| HasAt(s, t, k);
    var m :| 0 <= m < |t| && t[m] == c;
    assert s[k..k + |t|][m] == s[k + m];
  }

  /** Every character that is no white space is in some piece. */
  lemma SomePieceHas(text: string, z: Sizes, c: char) returns (j: nat)
    requires c in text && !IsSpace(c)
    ensures j < |Pieces(text, z)| && c in Pieces(text, z)[j]
  {
    var i := SomePassageHas(text, z, c);
    PiecesHoldTheText(text, z);
    j :| 0 <= j < |Pieces(text, z)| && Contains(Pieces(text, z)[j], PassagesOf(text, z)[i]);
    HasWhatItContains(Pieces(text, z)[j], PassagesOf(text, z)[i], c);
  }

  lemma ThreeInTwo(s: string, a: char, b: char, c: char)
    requires |s| <= 2 && a in s && b in s && c in s
    ensures a == b || b == c || a == c
  {
  }

  /** A text with three different characters splits, for a store with small enough pieces. */
  lemma SplitsInTwo(text: string, z: Sizes, a: char, b: char, c: char) returns (i: nat)
    requires a in text && b in text && c in text && a != b && b != c && a != c
    requires !IsSpace(a) && !IsSpace(b) && !IsSpace(c) && MaxOf(z) + OverlapOf(z) + MinOf(z) == 1
    ensures i < |Pieces(text, z)| && |Pieces(text, z)| >= 2 && a in Pieces(text, z)[i]
  {
    PiecesAreBounded(text, z);
    i := SomePieceHas(text, z, a);
    var j := SomePieceHas(text, z, b);
    var k := SomePieceHas(text, z, c);
    if i == j == k { ThreeInTwo(Pieces(text, z)[i], a, b, c); }
  }

  predicate HasThree(line: string) {
    's' in line && (('e' in line && 'r' in line) || ('i' in line && 't' in line))
  }

  lemma LineHasThree(m: Msg, clean: string -> string)
    requires LineOf(m, clean).Some?
    ensures HasThree(LineOf(m, clean).value)
  {
    var line := LineOf(m, clean).value;
    if m.Human? { assert line[1] == 's' && line[2] == 'e' && line[3] == 'r'; }
    if m.Assistant? { assert line[1] == 's' && line[3] == 'i' && line[4] == 's' && line[5] == 't'; }
  }

  lemma {:induction false} JoinedHas(lines: seq<string>, i: nat, c: char)
    requires i < |lines| && c in lines[i]
    ensures c in JoinedLines(lines)
  {
    var n := |lines| - 1;
    if i < n { JoinedHas(lines[..n], i, c); }
  }

  lemma JoinedHasThree(lines: seq<string>)
    requires lines != [] && HasThree(lines[0])
    ensures HasThree(JoinedLines(lines))
  {
    JoinedHas(lines, 0, 's');
    if 'e' in lines[0] && 'r' in lines[0] {
      JoinedHas(lines, 0, 'e');
      JoinedHas(lines, 0, 'r');
    } else {
      JoinedHas(lines, 0, 'i');
      JoinedHas(lines, 0, 't');
    }
  }

  lemma ThreeSplit(text: string, z: Sizes) returns (j: nat)
    requires HasThree(text) && MaxOf(z) + OverlapOf(z) + MinOf(z) == 1
    ensures j < |Pieces(text, z)| && |Pieces(text, z)| >= 2 && 's' in Pieces(text, z)[j]
  {
    if 'e' in text && 'r' in text {
      j := SplitsInTwo(text, z, 's', 'e', 'r');
    } else {
      j := SplitsInTwo(text, z, 's', 'i', 't');
    }
  }

  lemma FirstLine(h: seq<Msg>, clean: string -> string)
    requires Strip(Transcript(h, clean)) != ""
    ensures Lines(h, clean) != [] && HasThree(Lines(h, clean)[0])
  {
    assert Strip("") == "";
    LinesAreTheVoices(h, clean, Lines(h, clean)[0]);
    var i :| 0 <= i < |h| && LineOf(h[i], clean) == Some(Lines(h, clean)[0]);
    LineHasThree(h[i], clean);
  }

  lemma {:induction false} NothingRaises(texts: seq<string>, scrub: string -> string, fates: seq<Fate>)
    requires forall i :: 0 <= i < |fates| ==> !fates[i].Raises?
    ensures !Ingested(texts, scrub, fates).raised
  {
    if texts != [] { NothingRaises(texts[..|texts| - 1], scrub, fates); }
  }

  function OnlyAt(n: nat, j: nat): seq<Fate> {
    seq(n, i => if i == j then Accepts else Refuses)
  }

  function AsIs(t: string): string { t }

  /** A store that takes one piece, with this character in it, and no other. */
  lemma OneLanding(texts: seq<string>, j: nat, c: char)
    requires |texts| >= 2 && j < |texts| && c in texts[j] && !IsSpace(c)
    ensures var done := Ingested(texts, AsIs, OnlyAt(|texts|, j)); !done.raised && 0 < |done.rows| < |texts|
  {
    var fates := OnlyAt(|texts|, j);
    NothingRaises(texts, AsIs, fates);
    SqueezeKeeps(texts[j], c);
    SqueezeStrip(texts[j]);
    assert LandsAt(texts, AsIs, fates, j);
    SomeRowIffSomeLands(texts, AsIs, fates);
    assert !LandsAt(texts, AsIs, fates, if j == 0 then 1 else 0);
    AllRowsIffAllLand(texts, AsIs, fates);
    NoMoreRows(texts, AsIs, fates);
  }

  lemma TranscriptHasThree(h: seq<Msg>, clean: string -> string)
    requires Strip(Transcript(h, clean)) != ""
    ensures HasThree(Transcript(h, clean))
  {
    FirstLine(h, clean);
    JoinedHasThree(Lines(h, clean));
  }

  lemma NoContexts(pieces: seq<string>)
    ensures InContext(pieces, []) == pieces
  {
  }

  lemma MissingRewrite(h: seq<Msg>, clean: string -> string, keep: nat, z: Sizes, pieces: seq<string>, j: nat)
    returns (w: World)
    requires |h| > keep && Strip(Transcript(h, clean)) != "" && pieces == Pieces(Transcript(h, clean), z)
    requires j < |pieces| && |pieces| >= 2 && 's' in pieces[j]
    ensures Rewrites(h, w, keep) && |Archiving(h, w, keep).rows| < |ArchiveTexts(h, w)|
  {
    w := World(true, true, clean, AsIs, z, [], OnlyAt(|pieces|, j), Text("s"),
               Wording("", ""), Wording("", ""));
    OneLanding(pieces, j, 's');
    NoContexts(pieces);
    assert ArchiveTexts(h, w) == pieces;
  }

  /** It happens to every history that has something to archive: an unforced pass rewrites the thread
      and reports it archived, with a piece of the transcript missing. */
  lemma RewriteCanMissAPiece(h: seq<Msg>, clean: string -> string, keep: nat) returns (w: World)
    requires |h| > keep && Strip(Transcript(h, clean)) != ""
    ensures Rewrites(h, w, keep) && |Archiving(h, w, keep).rows| < |ArchiveTexts(h, w)|
  {
    var z := Sizes(1, 0, 0);
    TranscriptHasThree(h, clean);
    var j := ThreeSplit(Transcript(h, clean), z);
    w := MissingRewrite(h, clean, keep, z, Pieces(Transcript(h, clean), z), j);
  }
}
