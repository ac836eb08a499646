/** Storing a document in the knowledge store, piece by piece: a piece the store does not take is
    skipped, and the rest go on. */
module KnowledgeIngest {
  import opened Wrappers
  import opened Strings

  /** What the database does with one insert. */
  datatype Fate = Accepts | Refuses | Raises

  /** The fates of the pieces in order; past their end the database accepts. */
  function FateOf(fates: seq<Fate>, i: nat): Fate {
    if i < |fates| then fates[i] else Accepts
  }

  /** The text a row holds for a piece: without leaked reasoning and stripped; none if that is blank. */
  function Scrubbed(text: string, scrub: string -> string): Option<string> {
    if Strip(text) == "" || Strip(scrub(text)) == "" then None else Some(Strip(scrub(text)))
  }

  /** The piece has something to store and the database takes it. */
  predicate Lands(text: string, scrub: string -> string, fate: Fate) {
    Scrubbed(text, scrub).Some? && fate.Accepts?
  }

  predicate Breaks(text: string, scrub: string -> string, fate: Fate) {
    Scrubbed(text, scrub).Some? && fate.Raises?
  }

  /** The rows a document adds, and whether a write raised and ended it. */
  datatype Ingest = Ingest(rows: seq<string>, raised: bool)

  function Ingested(texts: seq<string>, scrub: string -> string, fates: seq<Fate>): Ingest {
    if texts == [] then Ingest([], false) else
    var n := |texts| - 1;
    var before := Ingested(texts[..n], scrub, fates);
    if before.raised then before
    else if Breaks(texts[n], scrub, FateOf(fates, n)) then Ingest(before.rows, true)
    else if Lands(texts[n], scrub, FateOf(fates, n))
    then Ingest(before.rows + [Scrubbed(texts[n], scrub).value], false)
    else before
  }

  /** What one insert comes to: an id, none, or an exception. */
  datatype Written = Id(id: nat) | NoId | Threw

  class Store {
    var rows: seq<string>

    constructor ()
      ensures rows == []
    {
      rows := [];
    }

    method AddChunk(content: string, scrub: string -> string, fate: Fate) returns (w: Written)
      modifies this
      ensures w.Id? <==> Lands(content, scrub, fate)
      ensures w.Threw? <==> Breaks(content, scrub, fate)
      ensures rows == if w.Id? then old(rows) + [Scrubbed(content, scrub).value] else old(rows)
    {
      if Strip(content) == "" {
        return NoId;
      }
      var clean := Strip(scrub(content));
      if clean == "" {
        return NoId;
      }
      match fate
      case Accepts =>
        w := Id(|rows|);
        rows := rows + [clean];
      case Refuses => w := NoId;
      case Raises => w := Threw;
    }

    /** The ids of the pieces stored, unless a write raises: then the ones before it stay stored. */
    method AddDocument(texts: seq<string>, scrub: string -> string, fates: seq<Fate>)
      returns (ids: Option<seq<nat>>)
      modifies this
      ensures var done := Ingested(texts, scrub, fates);
              && rows == old(rows) + done.rows
              && (ids.None? <==> done.raised) && (ids.Some? ==> |ids.value| == |done.rows|)
    {
      var created: seq<nat> := [];
      ghost var added: seq<string> := [];
      for i := 0 to |texts|
        invariant Ingested(texts[..i], scrub, fates) == Ingest(added, false)
        invariant rows == old(rows) + added && |created| == |added|
      {
        assert texts[..i + 1][..i] == texts[..i];
        var w := AddChunk(texts[i], scrub, FateOf(fates, i));
        if w.Threw? {
          RaiseEndsIt(texts, scrub, fates, i + 1);
          return None;
        }
        if w.Id? {
          created, added := created + [w.id], added + [Scrubbed(texts[i], scrub).value];
        }
      }
      assert texts[..|texts|] == texts;
      ids := Some(created);
    }
  }

  lemma {:induction false} RaiseEndsIt(texts: seq<string>, scrub: string -> string, fates: seq<Fate>, i: nat)
    requires i <= |texts| && Ingested(texts[..i], scrub, fates).raised
    ensures Ingested(texts, scrub, fates) == Ingested(texts[..i], scrub, fates)
  {
    if i == |texts| {
      assert texts[..i] == texts;
    } else {
      assert texts[..|texts| - 1][..i] == texts[..i];
      RaiseEndsIt(texts[..|texts| - 1], scrub, fates, i);
    }
  }

  // ---- What is stored ---------------------------------------------------------------------------

  predicate LandsAt(texts: seq<string>, scrub: string -> string, fates: seq<Fate>, i: nat)
    requires i < |texts|
  {
    Lands(texts[i], scrub, FateOf(fates, i))
  }

  /** Unless a write raises, some row is added exactly when some piece lands. */
  lemma {:induction false} SomeRowIffSomeLands(texts: seq<string>, scrub: string -> string, fates: seq<Fate>)
    requires !Ingested(texts, scrub, fates).raised
    ensures Ingested(texts, scrub, fates).rows != [] <==>
            exists i :: 0 <= i < |texts| && LandsAt(texts, scrub, fates, i)
  {
    if texts != [] {
      var n := |texts| - 1;
      SomeRowIffSomeLands(texts[..n], scrub, fates);
      forall i | 0 <= i < n ensures LandsAt(texts[..n], scrub, fates, i) == LandsAt(texts, scrub, fates, i) {}
      assert LandsAt(texts, scrub, fates, n) <==> Lands(texts[n], scrub, FateOf(fates, n));
    }
  }

  lemma RaiseStays(texts: seq<string>, scrub: string -> string, fates: seq<Fate>, i: nat)
    requires i <= |texts| && !Ingested(texts, scrub, fates).raised
    ensures !Ingested(texts[..i], scrub, fates).raised
  {
    if Ingested(texts[..i], scrub, fates).raised { RaiseEndsIt(texts, scrub, fates, i); }
  }

  /** The row a piece adds if nothing before it raised and it does not: none if it is blank, before or
      after its reasoning is taken out, or the database refuses it. */
  lemma RowOfTheLast(texts: seq<string>, scrub: string -> string, fates: seq<Fate>)
    requires texts != [] && !Ingested(texts, scrub, fates).raised
    ensures var n := |texts| - 1;
            Ingested(texts, scrub, fates).rows
            == Ingested(texts[..n], scrub, fates).rows
               + if Strip(texts[n]) != "" && Strip(scrub(texts[n])) != "" && (n >= |fates| || fates[n].Accepts?)
                 then [Strip(scrub(texts[n]))] else []
  {
    var before := Ingested(texts[..|texts| - 1], scrub, fates).rows;
    assert before + [] == before;
  }

  lemma {:induction false} RowsGrow(texts: seq<string>, scrub: string -> string, fates: seq<Fate>, i: nat)
    requires i <= |texts|
    ensures Ingested(texts[..i], scrub, fates).rows <= Ingested(texts, scrub, fates).rows
  {
    if i == |texts| {
      assert texts[..i] == texts;
    } else {
      assert texts[..|texts| - 1][..i] == texts[..i];
      RowsGrow(texts[..|texts| - 1], scrub, fates, i);
    }
  }

  /** The pieces before one have added their rows; the piece adds its own behind them if it is not
      blank, before and after its reasoning is taken out, and the database takes it. */
  lemma EachPieceAddsItsRow(texts: seq<string>, scrub: string -> string, fates: seq<Fate>, i: nat)
    requires i < |texts| && !Ingested(texts, scrub, fates).raised
    ensures Ingested(texts[..i], scrub, fates).rows
            + (if Strip(texts[i]) != "" && Strip(scrub(texts[i])) != "" && (i >= |fates| || fates[i].Accepts?)
               then [Strip(scrub(texts[i]))] else [])
            <= Ingested(texts, scrub, fates).rows
  {
    assert texts[..i + 1][..i] == texts[..i];
    RaiseStays(texts, scrub, fates, i + 1);
    RowOfTheLast(texts[..i + 1], scrub, fates);
    RowsGrow(texts, scrub, fates, i + 1);
  }

  /** The first write that raises, of a piece that is not blank, ends it: the rows are those of the
      pieces before. */
  lemma FirstRaiseEndsIt(texts: seq<string>, scrub: string -> string, fates: seq<Fate>, i: nat)
    requires i < |texts| && !Ingested(texts[..i], scrub, fates).raised && i < |fates| && fates[i].Raises?
    requires Strip(texts[i]) != "" && Strip(scrub(texts[i])) != ""
    ensures Ingested(texts, scrub, fates) == Ingest(Ingested(texts[..i], scrub, fates).rows, true)
  {
    assert texts[..i + 1][..i] == texts[..i];
    RaiseEndsIt(texts, scrub, fates, i + 1);
  }

  lemma {:induction false} NoMoreRows(texts: seq<string>, scrub: string -> string, fates: seq<Fate>)
    ensures var done := Ingested(texts, scrub, fates);
            |done.rows| <= |texts| && (done.raised ==> |done.rows| < |texts|)
  {
    if texts != [] { NoMoreRows(texts[..|texts| - 1], scrub, fates); }
  }

  /** There is a row for every piece exactly when every piece lands; then no write raised. */
  lemma {:induction false} AllRowsIffAllLand(texts: seq<string>, scrub: string -> string, fates: seq<Fate>)
    ensures |Ingested(texts, scrub, fates).rows| == |texts| <==>
            forall i :: 0 <= i < |texts| ==> LandsAt(texts, scrub, fates, i)
  {
    if texts != [] {
      var n := |texts| - 1;
      NoMoreRows(texts[..n], scrub, fates);
      AllRowsIffAllLand(texts[..n], scrub, fates);
      forall i | 0 <= i < n ensures LandsAt(texts[..n], scrub, fates, i) == LandsAt(texts, scrub, fates, i) {}
      assert LandsAt(texts, scrub, fates, n) <==> Lands(texts[n], scrub, FateOf(fates, n));
    }
  }

  lemma LastRow(texts: seq<string>, scrub: string -> string, fates: seq<Fate>)
    requires texts != [] && |Ingested(texts, scrub, fates).rows| == |texts|
    ensures var n := |texts| - 1;
            var before, row := Ingested(texts[..n], scrub, fates).rows, Scrubbed(texts[n], scrub);
            |before| == n && row.Some? && Ingested(texts, scrub, fates).rows == before + [row.value]
  {
    NoMoreRows(texts[..|texts| - 1], scrub, fates);
  }

  /** And each row then holds its piece. */
  lemma {:induction false} RowsHoldTheirPieces(texts: seq<string>, scrub: string -> string, fates: seq<Fate>, i: nat)
    requires i < |texts| && |Ingested(texts, scrub, fates).rows| == |texts|
    ensures Some(Ingested(texts, scrub, fates).rows[i]) == Scrubbed(texts[i], scrub)
  {
    var n := |texts| - 1;
    LastRow(texts, scrub, fates);
    if i < n { RowsHoldTheirPieces(texts[..n], scrub, fates, i); }
  }
}
