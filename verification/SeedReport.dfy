/** What the report of a seed merge says, path by path. */
module SeedReport {
  import opened Strings
  import opened Wrappers
  import opened ConfigTree
  import opened SeedMerge

  function Dotted(p: Path): string
    requires p != []
  {
    Joined(p, '.')
  }

  lemma DottedGrows(prefix: string, k: string, p: Path)
    requires p != []
    ensures prefix + Dotted([k] + p) == prefix + k + "." + Dotted(p)
  {
    assert ([k] + p)[1..] == p;
    assert prefix + (k + ['.'] + Dotted(p)) == prefix + k + "." + Dotted(p);
  }

  lemma GetBelow(d: Doc, k: string, p: Path)
    requires k in d
    ensures Get(Dict(d), [k] + p) == Get(d[k], p)
  {
    assert ([k] + p)[1..] == p;
  }

  lemma GetBelowSnapshot(last: Doc, k: string, p: Path)
    requires p != []
    ensures Get(Dict(last), [k] + p) == Get(Dict(Below(last, k)), p)
  {
    assert ([k] + p)[1..] == p;
  }

  lemma GetOne(d: Doc, k: string)
    ensures Get(Dict(d), [k]) == At(d, k)
  {
    if k in d { assert Get(d[k], [k][1..]) == Some(d[k]); }
  }

  /** What an entry says of the live value, the seed's, the last applied one and the merged one. */
  predicate Says(verdict: Verdict, live: Option<Tree>, seed: Option<Tree>, last: Option<Tree>, merged: Option<Tree>) {
    match verdict
    case Added => live.None? && seed.Some? && merged == seed
    case Updated => live.Some? && live == last && seed.Some? && seed != live && merged == seed
    case Kept => live.Some? && seed.Some? && live != last && merged == live
    case Removed => live.Some? && live == last && live.value.Leaf? && seed.None? && merged.None?
  }

  /** Every entry of the report names a path.  Added: there was nothing, and now there is the seed's
      value.  Updated: there was the value last applied, and now there is the seed's, which differs.
      Kept: there was a value, not the one last applied, and it is still there though the seed has one.
      Removed: there was the leaf last applied, the seed has nothing, and now there is nothing. */
  lemma {:induction false} EveryEntryIsTrue(live: Doc, seed: Doc, last: Doc, prefix: string, secrets: set<string>,
                                            e: Entry) returns (p: Path)
    requires e in Log(live, seed, last, prefix, secrets)
    ensures p != [] && e.dotted == prefix + Dotted(p)
    ensures var merged := Merge(live, seed, last, prefix, secrets);
            Says(e.verdict, Get(Dict(live), p), Get(Dict(seed), p), Get(Dict(last), p), Get(Dict(merged), p))
    decreases Dict(seed)
  {
    var k :| k in seed.Keys + last.Keys && e in LogAt(live, seed, last, prefix, secrets, k);
    var merged := Merge(live, seed, last, prefix, secrets);
    MergeLooksUp(live, seed, last, prefix, secrets, k);
    if k in seed && seed[k].Dict? && k in live && live[k].Dict? {
      var rest := EveryEntryIsTrue(live[k].kids, seed[k].kids, Below(last, k), prefix + k + ".", secrets, e);
      p := [k] + rest;
      DottedGrows(prefix, k, rest);
      GetBelow(live, k, rest);
      GetBelow(seed, k, rest);
      GetBelow(merged, k, rest);
      GetBelowSnapshot(last, k, rest);
    } else {
      p := [k];
      GetOne(live, k);
      GetOne(seed, k);
      GetOne(last, k);
      GetOne(merged, k);
    }
  }

  /** The merge gets to the path: the live document and the seed hold maps all the way, but not both
      at its end, and no credential is met. */
  predicate Reached(live: Doc, seed: Doc, prefix: string, secrets: set<string>, p: Path)
    requires p != []
    decreases |p|
  {
    var k := p[0];
    prefix + k !in secrets &&
    var both := k in seed && seed[k].Dict? && k in live && live[k].Dict?;
    if |p| == 1 then !both
    else both && Reached(live[k].kids, seed[k].kids, prefix + k + ".", secrets, p[1..])
  }

  /** Nothing of the kind goes unreported. */
  lemma {:induction false} NothingGoesUnreported(live: Doc, seed: Doc, last: Doc, prefix: string,
                                                 secrets: set<string>, p: Path, verdict: Verdict)
    requires p != [] && Reached(live, seed, prefix, secrets, p)
    requires var merged := Merge(live, seed, last, prefix, secrets);
             Says(verdict, Get(Dict(live), p), Get(Dict(seed), p), Get(Dict(last), p), Get(Dict(merged), p))
    ensures Entry(verdict, prefix + Dotted(p)) in Log(live, seed, last, prefix, secrets)
    decreases |p|
  {
    var k, merged := p[0], Merge(live, seed, last, prefix, secrets);
    var e := Entry(verdict, prefix + Dotted(p));
    MergeLooksUp(live, seed, last, prefix, secrets, k);
    if |p| == 1 {
      assert p == [k];
      GetOne(live, k);
      GetOne(seed, k);
      GetOne(last, k);
      assert e in LogAt(live, seed, last, prefix, secrets, k);
    } else {
      var rest := p[1..];
      assert p == [k] + rest;
      GetBelow(live, k, rest);
      GetBelow(seed, k, rest);
      GetBelow(merged, k, rest);
      GetBelowSnapshot(last, k, rest);
      DottedGrows(prefix, k, rest);
      NothingGoesUnreported(live[k].kids, seed[k].kids, Below(last, k), prefix + k + ".", secrets, rest, verdict);
      assert e in LogAt(live, seed, last, prefix, secrets, k);
    }
  }
}
