/** What neighbouring pieces of a document share, and how short the last one can be. */
module PieceOverlaps {
  import opened Strings
  import opened Passages
  import opened Chunking

  // ---- What the next piece repeats ---------------------------------------------------------------

  lemma SpaceAtTheEnds(s: string, i: nat, j: nat)
    requires i <= j <= |s| && AllSpace(s[..i]) && AllSpace(s[j..])
    ensures forall k :: 0 <= k < i || j <= k < |s| ==> IsSpace(s[k])
  {
    forall k | 0 <= k < i || j <= k < |s| ensures IsSpace(s[k]) {
      if k < i { assert s[..i][k] == s[k]; } else { assert s[j..][k - j] == s[k]; }
    }
  }

  lemma TrimmedStays(s: string)
    requires Trimmed(s)
    ensures Strip(s) == s
  {
    var i, j := StripTakesSpace(s);
    SpaceAtTheEnds(s, i, j);
  }

  /** Stripping the end of a text that is trimmed takes white space off its beginning only. */
  lemma StripOfAnEnd(s: string, k: nat)
    requires Trimmed(s) && k < |s|
    ensures var t := Strip(s[k..]);
            && 0 < |t| <= |s| - k && s[|s| - |t|..] == t && (|t| == |s| - k || IsSpace(s[|s| - |t| - 1]))
  {
    var i, j := StripTakesSpace(s[k..]);
    SpaceAtTheEnds(s[k..], i, j);
    assert s[k..][|s| - k - 1] == s[|s| - 1];
    assert s[k..][i..j] == s[k + i..k + j];
  }

  /** The repeated end is a stripped end of the piece, within the overlap and from a space on. */
  lemma TailIsAnEnd(piece: string, overlap: nat) returns (k: nat)
    requires Trimmed(piece) && 0 < overlap < |piece|
    ensures |piece| - overlap <= k < |piece| && OverlapTail(piece, overlap) == Strip(piece[k..])
    ensures k == |piece| - overlap || IsSpace(piece[k - 1])
  {
    var from := |piece| - overlap;
    var tail := piece[from..];
    var space := FindSpace(tail);
    k := from;
    if space < |tail| {
      k := from + space + 1;
      assert piece[from + space] == tail[space] == ' ' && IsSpace(' ');
      assert tail[space + 1..] == piece[k..];
    }
  }

  /** A piece longer than the overlap is repeated by its end: not empty, no longer than the overlap,
      and begun at a word, unless the overlap lies within one. */
  lemma TailIsTheEnd(piece: string, overlap: nat)
    requires Trimmed(piece) && 0 < overlap < |piece|
    ensures var t := OverlapTail(piece, overlap);
            && 0 < |t| <= overlap && piece[|piece| - |t|..] == t
            && (|t| == overlap || IsSpace(piece[|piece| - |t| - 1]))
  {
    var k := TailIsAnEnd(piece, overlap);
    StripOfAnEnd(piece, k);
  }

  /** A passage joins the piece being filled, on a line of its own, exactly when both fit the limit;
      else that piece is done, and the next is its end, if it is long enough to have one, and the
      passage. */
  lemma WhenAPieceIsDone(f: Filling, passage: string, z: Sizes)
    requires f.cur != "" ==> Trimmed(f.cur)
    ensures var g, tail := FillOne(f, passage, z), OverlapTail(f.cur, OverlapOf(z));
            if f.cur == "" then g == Filling(f.pieces, passage)
            else if |f.cur| + 1 + |passage| <= MaxOf(z) then g == Filling(f.pieces, f.cur + "\n" + passage)
            else && g.pieces == f.pieces + [f.cur]
                 && g.cur == (if OverlapOf(z) == 0 || |f.cur| <= OverlapOf(z) then passage else tail + "\n" + passage)
  {
    if f.cur != "" {
      TrimmedStays(f.cur);
      if 0 < OverlapOf(z) < |f.cur| { TailIsTheEnd(f.cur, OverlapOf(z)); }
    }
  }

  // ---- No thin last piece -----------------------------------------------------------------------------

  lemma JoinedStaysTrimmed(a: string, b: string)
    requires Trimmed(a) && Trimmed(b)
    ensures Trimmed(a + "\n" + b)
  {
    var s := a + "\n" + b;
    assert s[0] == a[0] && s[|s| - 1] == b[|b| - 1];
  }

  lemma TailIsTrimmed(piece: string, overlap: nat)
    ensures OverlapTail(piece, overlap) == "" || Trimmed(OverlapTail(piece, overlap))
  {
    if overlap != 0 && |piece| > overlap {
      var tail := piece[|piece| - overlap..];
      var space := FindSpace(tail);
      var i, j := StripTakesSpace(if space < |tail| then tail[space + 1..] else tail);
    }
  }

  /** The piece being filled is trimmed, and with the last one done it is longer than the limit. */
  predicate Filled?(f: Filling, z: Sizes) {
    && Trimmed(f.cur)
    && (f.pieces != [] ==>
          Trimmed(f.pieces[|f.pieces| - 1]) && |f.pieces[|f.pieces| - 1]| + 1 + |f.cur| > MaxOf(z))
  }

  lemma FillOneStays(f: Filling, passage: string, z: Sizes)
    requires (f == Filling([], "") || Filled?(f, z)) && Trimmed(passage)
    ensures Filled?(FillOne(f, passage, z), z)
  {
    WhenAPieceIsDone(f, passage, z);
    TailIsTrimmed(f.cur, OverlapOf(z));
    if f.cur != "" { JoinedStaysTrimmed(f.cur, passage); }
    if OverlapTail(f.cur, OverlapOf(z)) != "" { JoinedStaysTrimmed(OverlapTail(f.cur, OverlapOf(z)), passage); }
  }

  lemma {:induction false} FillingStays(passages: seq<string>, z: Sizes)
    requires passages != [] && AllFit(passages, MaxOf(z))
    ensures Filled?(Filled(passages, z), z)
  {
    var n := |passages| - 1;
    if n > 0 { FillingStays(passages[..n], z); } else { assert passages[..0] == []; }
    assert Fits(passages[n], MaxOf(z));
    FillOneStays(Filled(passages[..n], z), passages[n], z);
  }

  lemma FoldingLeavesNoThinOne(f: Filling, z: Sizes)
    requires Filled?(f, z)
    ensures var pieces := FoldedBack(Closed(f), z); |pieces| >= 2 ==> |pieces[|pieces| - 1]| >= MinOf(z)
  {
    TrimmedStays(f.cur);
    if f.pieces != [] {
      JoinedStaysTrimmed(f.pieces[|f.pieces| - 1], f.cur);
      TrimmedStays(f.pieces[|f.pieces| - 1] + "\n" + f.cur);
    }
  }

  /** The last of several pieces is never shorter than the least size: a thin one joins the one
      before it, and the two are longer than the limit together. */
  lemma LastPieceIsNotThin(text: string, z: Sizes)
    ensures var pieces := Pieces(text, z); |pieces| >= 2 ==> |pieces[|pieces| - 1]| >= MinOf(z)
  {
    var s := Strip(text);
    if |s| > MaxOf(z) {
      var passages := Segments(s, MaxOf(z));
      SegmentsShow(s, MaxOf(z));
      if passages == [] {
        assert Closed(Filled([], z)) == [] by { assert Strip("") == ""; }
      } else {
        FillingStays(passages, z);
        FoldingLeavesNoThinOne(Filled(passages, z), z);
      }
    }
  }
}
