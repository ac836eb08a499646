/** Merge-on-boot: the image's declarative seed is merged into the live configuration against a
    snapshot of the seed as it was last applied. */
module SeedMerge {
  import opened Wrappers
  import opened ConfigTree

  datatype Verdict = Added | Updated | Kept | Removed

  datatype Entry = Entry(verdict: Verdict, dotted: string)

  function At(d: Doc, k: string): Option<Tree> {
    if k in d then Some(d[k]) else None
  }

  /** The snapshot below a key; a snapshot that holds no map there is no baseline. */
  function Below(d: Doc, k: string): Doc {
    if k in d && d[k].Dict? then d[k].kids else map[]
  }

  function Merge(live: Doc, seed: Doc, last: Doc, prefix: string, secrets: set<string>): Doc
    decreases Dict(seed), 1
  {
    map k | k in live.Keys + seed.Keys && MergedAt(live, seed, last, prefix, secrets, k).Some? ::
      MergedAt(live, seed, last, prefix, secrets, k).value
  }

  function MergedAt(live: Doc, seed: Doc, last: Doc, prefix: string, secrets: set<string>, k: string): Option<Tree>
    decreases Dict(seed), 0
  {
    if prefix + k in secrets then At(live, k)
    else if k in seed then
      if seed[k].Dict? && k in live && live[k].Dict?
      then Some(Dict(Merge(live[k].kids, seed[k].kids, Below(last, k), prefix + k + ".", secrets)))
      else if k !in live || (k in last && live[k] == last[k]) then Some(seed[k])
      else Some(live[k])
    else if k in last && last[k].Leaf? && At(live, k) == Some(last[k]) then None
    else At(live, k)
  }

  /** What the merge reports for one key: a verdict, or the report of the merge below it. */
  function LogAt(live: Doc, seed: Doc, last: Doc, prefix: string, secrets: set<string>, k: string): set<Entry>
    decreases Dict(seed), 0
  {
    var dotted := prefix + k;
    if dotted in secrets then {}
    else if k in seed then
      if seed[k].Dict? && k in live && live[k].Dict?
      then LogOf(seed[k].kids.Keys + Below(last, k).Keys,
                 live[k].kids, seed[k].kids, Below(last, k), dotted + ".", secrets)
      else if k !in live then {Entry(Added, dotted)}
      else if k !in last || live[k] != last[k] then {Entry(Kept, dotted)}
      else if live[k] != seed[k] then {Entry(Updated, dotted)}
      else {}
    else if k in last && last[k].Leaf? && At(live, k) == Some(last[k]) then {Entry(Removed, dotted)}
    else {}
  }

  function LogOf(keys: set<string>, live: Doc, seed: Doc, last: Doc, prefix: string, secrets: set<string>): set<Entry>
    decreases Dict(seed), 1
  {
    set k, e | k in keys && e in LogAt(live, seed, last, prefix, secrets, k) :: e
  }

  function Log(live: Doc, seed: Doc, last: Doc, prefix: string, secrets: set<string>): set<Entry> {
    LogOf(seed.Keys + last.Keys, live, seed, last, prefix, secrets)
  }

  /** One key of the seed: the value the live document holds for it afterwards, and the entry. */
  method MergeSeedKey(live: Doc, seed: Doc, last: Doc, prefix: string, secrets: set<string>, k: string)
    returns (now: Option<Tree>, entry: set<Entry>)
    requires k in seed
    ensures now == MergedAt(live, seed, last, prefix, secrets, k)
    ensures entry == LogAt(live, seed, last, prefix, secrets, k)
    decreases Dict(seed), 0
  {
    var dotted := prefix + k;
    now, entry := At(live, k), {};
    if dotted in secrets {
      return;
    }
    if seed[k].Dict? && now.Some? && now.value.Dict? {
      var inner;
      inner, entry := MergeThreeWay(now.value.kids, seed[k].kids, Below(last, k), dotted + ".", secrets);
      now := Some(Dict(inner));
    } else if now.None? {
      now, entry := Some(seed[k]), {Entry(Added, dotted)};
    } else if k !in last {
      entry := {Entry(Kept, dotted)};
    } else if now.value == last[k] {
      if now.value != seed[k] {
        now, entry := Some(seed[k]), {Entry(Updated, dotted)};
      }
    } else {
      entry := {Entry(Kept, dotted)};
    }
  }

  method MergeThreeWay(live: Doc, seed: Doc, last: Doc, prefix: string, secrets: set<string>)
    returns (r: Doc, out: set<Entry>)
    ensures r == Merge(live, seed, last, prefix, secrets)
    ensures out == Log(live, seed, last, prefix, secrets)
    decreases Dict(seed), 1
  {
    r, out := live, {};
    ghost var done := {};
    var todo := seed.Keys;
    while todo != {}
      invariant todo <= seed.Keys && done == seed.Keys - todo
      invariant MergedOn(done, r, live, seed, last, prefix, secrets)
      invariant out == LogOf(done, live, seed, last, prefix, secrets)
      decreases todo
    {
      var k :| k in todo;
      var now, entry := MergeSeedKey(live, seed, last, prefix, secrets, k);
      LogGrows(done, k, live, seed, last, prefix, secrets);
      if now.Some? {
        r := r[k := now.value];
      }
      out, todo, done := out + entry, todo - {k}, done + {k};
    }
    r, out := Retract(r, out, live, seed, last, prefix, secrets);
    MergedOnAll(r, live, seed, last, prefix, secrets);
  }

  /** Retracts the leaves the seed dropped and the operator never touched. */
  method Retract(before: Doc, log: set<Entry>, live: Doc, seed: Doc, last: Doc, prefix: string, secrets: set<string>)
    returns (r: Doc, out: set<Entry>)
    requires MergedOn(seed.Keys, before, live, seed, last, prefix, secrets)
    requires log == LogOf(seed.Keys, live, seed, last, prefix, secrets)
    ensures MergedOn(seed.Keys + last.Keys, r, live, seed, last, prefix, secrets)
    ensures out == LogOf(seed.Keys + last.Keys, live, seed, last, prefix, secrets)
  {
    r, out := before, log;
    ghost var done := seed.Keys;
    var todo := last.Keys - seed.Keys;
    while todo != {}
      invariant todo <= last.Keys - seed.Keys && done == seed.Keys + last.Keys - todo
      invariant MergedOn(done, r, live, seed, last, prefix, secrets)
      invariant out == LogOf(done, live, seed, last, prefix, secrets)
      decreases todo
    {
      var k :| k in todo;
      LogGrows(done, k, live, seed, last, prefix, secrets);
      assert At(r, k) == At(live, k);
      if prefix + k !in secrets && !last[k].Dict? && k in r && r[k] == last[k] {
        r, out := r - {k}, out + {Entry(Removed, prefix + k)};
      }
      todo, done := todo - {k}, done + {k};
    }
    assert done == seed.Keys + last.Keys;
  }

  /** The document holds the merged values of the keys done so far, and its old ones elsewhere. */
  ghost predicate MergedOn(done: set<string>, r: Doc, live: Doc, seed: Doc, last: Doc, prefix: string,
                           secrets: set<string>)
  {
    forall k :: At(r, k) == if k in done then MergedAt(live, seed, last, prefix, secrets, k) else At(live, k)
  }

  lemma MergedOnAll(r: Doc, live: Doc, seed: Doc, last: Doc, prefix: string, secrets: set<string>)
    requires MergedOn(seed.Keys + last.Keys, r, live, seed, last, prefix, secrets)
    ensures r == Merge(live, seed, last, prefix, secrets)
  {
    forall k ensures At(r, k) == At(Merge(live, seed, last, prefix, secrets), k) {
      MergeLooksUp(live, seed, last, prefix, secrets, k);
    }
    SameLookups(r, Merge(live, seed, last, prefix, secrets));
  }

  lemma LogGrows(keys: set<string>, k: string, live: Doc, seed: Doc, last: Doc, prefix: string, secrets: set<string>)
    ensures LogOf(keys + {k}, live, seed, last, prefix, secrets) ==
            LogOf(keys, live, seed, last, prefix, secrets) + LogAt(live, seed, last, prefix, secrets, k)
  {
  }

  lemma MergeLooksUp(live: Doc, seed: Doc, last: Doc, prefix: string, secrets: set<string>, k: string)
    ensures At(Merge(live, seed, last, prefix, secrets), k) == MergedAt(live, seed, last, prefix, secrets, k)
  {
  }

  // ---- The operator wins -------------------------------------------------------------------

  /** A live leaf the snapshot does not hold with that very value is unchanged by the merge,
      whatever shapes the three documents have along its path. */
  lemma {:induction false} OperatorWins(live: Doc, seed: Doc, last: Doc, prefix: string, secrets: set<string>,
                                        p: Path, v: Scalar)
    requires p != [] && Get(Dict(live), p) == Some(Leaf(v))
    requires Get(Dict(last), p) != Some(Leaf(v))
    ensures Get(Dict(Merge(live, seed, last, prefix, secrets)), p) == Some(Leaf(v))
    decreases |p|
  {
    var k := p[0];
    MergeLooksUp(live, seed, last, prefix, secrets, k);
    if prefix + k !in secrets && k in seed && seed[k].Dict? && live[k].Dict? {
      assert Get(Dict(Below(last, k)), p[1..]) != Some(Leaf(v));
      OperatorWins(live[k].kids, seed[k].kids, Below(last, k), prefix + k + ".", secrets, p[1..], v);
    }
  }

  // ---- Stability ---------------------------------------------------------------------------------

  /** A document that already is the seed is left alone, with any snapshot or none. */
  lemma {:induction false} SeedIsFixed(seed: Doc, last: Doc, prefix: string, secrets: set<string>)
    ensures Merge(seed, seed, last, prefix, secrets) == seed
    decreases Dict(seed)
  {
    var m := Merge(seed, seed, last, prefix, secrets);
    forall k ensures At(m, k) == At(seed, k) {
      MergeLooksUp(seed, seed, last, prefix, secrets, k);
      if k in seed && seed[k].Dict? {
        SeedIsFixed(seed[k].kids, Below(last, k), prefix + k + ".", secrets);
      }
    }
    SameLookups(m, seed);
  }

  lemma SameLookups(a: Doc, b: Doc)
    requires forall k :: At(a, k) == At(b, k)
    ensures a == b
  {
    forall k ensures k in a <==> k in b { assert At(a, k) == At(b, k); }
    forall k | k in a ensures a[k] == b[k] { assert At(a, k) == At(b, k); }
  }

  /** Merging the same seed again, now against itself as the snapshot, changes nothing. */
  lemma {:induction false} RemergeIsIdentity(live: Doc, seed: Doc, last: Doc, prefix: string, secrets: set<string>)
    ensures var merged := Merge(live, seed, last, prefix, secrets);
            Merge(merged, seed, seed, prefix, secrets) == merged
    decreases Dict(seed)
  {
    var merged := Merge(live, seed, last, prefix, secrets);
    forall k ensures At(Merge(merged, seed, seed, prefix, secrets), k) == At(merged, k) {
      MergeLooksUp(live, seed, last, prefix, secrets, k);
      MergeLooksUp(merged, seed, seed, prefix, secrets, k);
      if k in seed && seed[k].Dict? {
        SeedIsFixed(seed[k].kids, seed[k].kids, prefix + k + ".", secrets);
        if k in live && live[k].Dict? {
          RemergeIsIdentity(live[k].kids, seed[k].kids, Below(last, k), prefix + k + ".", secrets);
        }
      }
    }
    SameLookups(Merge(merged, seed, seed, prefix, secrets), merged);
  }

  // ---- The report ----------------------------------------------------------------------------

  /** The report names an addition, update or removal exactly when the merge changed the live
      document: the decision to write the file loses no change and writes no copy. */
  lemma {:induction false} ReportTellsChange(live: Doc, seed: Doc, last: Doc, prefix: string, secrets: set<string>)
    ensures (exists e :: e in Log(live, seed, last, prefix, secrets) && !e.verdict.Kept?) <==>
            Merge(live, seed, last, prefix, secrets) != live
    decreases Dict(seed)
  {
    var m, log := Merge(live, seed, last, prefix, secrets), Log(live, seed, last, prefix, secrets);
    forall k ensures (exists e :: e in LogAt(live, seed, last, prefix, secrets, k) && !e.verdict.Kept?) <==>
                     At(m, k) != At(live, k)
    {
      MergeLooksUp(live, seed, last, prefix, secrets, k);
      ReportTellsChangeAt(live, seed, last, prefix, secrets, k);
    }
    if e :| e in log && !e.verdict.Kept? {
      var k :| k in seed.Keys + last.Keys && e in LogAt(live, seed, last, prefix, secrets, k);
      assert At(m, k) != At(live, k);
    }
    if m != live {
      if forall k :: At(m, k) == At(live, k) { SameLookups(m, live); }
      var k :| At(m, k) != At(live, k);
      var e :| e in LogAt(live, seed, last, prefix, secrets, k) && !e.verdict.Kept?;
      assert e in log;
    }
  }

  lemma {:induction false} ReportTellsChangeAt(live: Doc, seed: Doc, last: Doc, prefix: string, secrets: set<string>,
                                               k: string)
    ensures (exists e :: e in LogAt(live, seed, last, prefix, secrets, k) && !e.verdict.Kept?) <==>
            MergedAt(live, seed, last, prefix, secrets, k) != At(live, k)
    decreases Dict(seed), 0
  {
    var dotted, log := prefix + k, LogAt(live, seed, last, prefix, secrets, k);
    if dotted !in secrets && k in seed && seed[k].Dict? && k in live && live[k].Dict? {
      ReportTellsChange(live[k].kids, seed[k].kids, Below(last, k), dotted + ".", secrets);
    } else {
      assert Entry(Added, dotted) in log || Entry(Updated, dotted) in log || Entry(Removed, dotted) in log ||
             forall e :: e in log ==> e.verdict.Kept?;
    }
  }
}
