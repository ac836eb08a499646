/** Merge-on-boot over any number of image rolls: which parts of a volume follow the image, and
    when a section of the seed carries a credential with it. */
module SeedTracking {
  import opened Wrappers
  import opened ConfigTree
  import opened SeedMerge

  function LeafOf(t: Option<Tree>): Option<Scalar> {
    if t.Some? && t.value.Leaf? then Some(t.value.value) else None
  }

  /** The leaf a document holds at a path, if what it holds there is a leaf. */
  function LeafAt(d: Doc, p: Path): Option<Scalar> {
    LeafOf(Get(Dict(d), p))
  }

  /** No key along the path is a credential. */
  predicate SecretFree(prefix: string, p: Path, secrets: set<string>)
    decreases |p|
  {
    p == [] || (prefix + p[0] !in secrets && SecretFree(prefix + p[0] + ".", p[1..], secrets))
  }

  lemma OneStep(d: Doc, p: Path)
    requires |p| == 1
    ensures Get(Dict(d), p) == At(d, p[0])
  {
  }

  // ---- One merge of an untouched document ----------------------------------------------------

  /** The seed has dropped a whole map the snapshot held, at some point along the path. */
  predicate SectionDropped(last: Doc, seed: Doc, p: Path)
    decreases |p|
  {
    p != [] && p[0] in last && last[p[0]].Dict? &&
    (p[0] !in seed || (seed[p[0]].Dict? && SectionDropped(last[p[0]].kids, seed[p[0]].kids, p[1..])))
  }

  /** Over a live document equal to the snapshot, every path free of credentials reads the seed
      afterwards — a leaf the seed dropped is gone — except inside a section the seed dropped
      whole, which stays as it was. */
  lemma {:induction false} UntouchedFollowsSeed(live: Doc, seed: Doc, prefix: string, secrets: set<string>, p: Path)
    requires p != [] && SecretFree(prefix, p, secrets)
    ensures LeafAt(Merge(live, seed, live, prefix, secrets), p) ==
            if SectionDropped(live, seed, p) then LeafAt(live, p) else LeafAt(seed, p)
    decreases |p|
  {
    var k := p[0];
    MergeLooksUp(live, seed, live, prefix, secrets, k);
    if k in seed && seed[k].Dict? && k in live && live[k].Dict? && |p| > 1 {
      UntouchedFollowsSeed(live[k].kids, seed[k].kids, prefix + k + ".", secrets, p[1..]);
    } else if |p| == 1 {
      OneStep(Merge(live, seed, live, prefix, secrets), p);
      OneStep(live, p);
      OneStep(seed, p);
    }
  }

  predicate DropsNoSection(last: Doc, seed: Doc)
    decreases Dict(seed)
  {
    forall k :: k in last && last[k].Dict? ==>
      k in seed && (seed[k].Dict? ==> DropsNoSection(last[k].kids, seed[k].kids))
  }

  /** With no credentials declared, an untouched document becomes the seed exactly when the seed
      drops no map section: the merge never removes a whole section. */
  lemma {:induction false} UntouchedBecomesSeed(live: Doc, seed: Doc, prefix: string)
    ensures Merge(live, seed, live, prefix, {}) == seed <==> DropsNoSection(live, seed)
    decreases Dict(seed)
  {
    var m := Merge(live, seed, live, prefix, {});
    forall k ensures At(m, k) == At(seed, k) <==>
                     (k in live && live[k].Dict? ==>
                      k in seed && (seed[k].Dict? ==> DropsNoSection(live[k].kids, seed[k].kids)))
    {
      MergeLooksUp(live, seed, live, prefix, {}, k);
      if k in seed && seed[k].Dict? && k in live && live[k].Dict? {
        UntouchedBecomesSeed(live[k].kids, seed[k].kids, prefix + k + ".");
      }
    }
    if forall k :: At(m, k) == At(seed, k) { SameLookups(m, seed); }
  }

  // ---- Image rolls ---------------------------------------------------------------------------------

  datatype Volume = Volume(live: Doc, snapshot: Doc)

  /** One boot with merging on. An empty seed is skipped; otherwise the seed becomes the snapshot,
      whether or not anything changed. */
  function Boot(v: Volume, seed: Doc, secrets: set<string>): Volume {
    if seed == map[] then v else Volume(Merge(v.live, seed, v.snapshot, "", secrets), seed)
  }

  function Rolled(v: Volume, seeds: seq<Doc>, secrets: set<string>): Volume {
    if seeds == [] then v else Boot(Rolled(v, seeds[..|seeds| - 1], secrets), seeds[|seeds| - 1], secrets)
  }

  /** Where a boot can break off: before the live file is replaced, or between the two files. */
  datatype Fault = NoFault | BeforeLive | BeforeSnapshot

  /** A boot that may break off. Without a change to make, the live file is not written at all. */
  function BootWith(v: Volume, seed: Doc, secrets: set<string>, fault: Fault): Volume {
    if seed == map[] then v else
    var merged := Merge(v.live, seed, v.snapshot, "", secrets);
    if fault.BeforeLive? && merged != v.live then v
    else if fault.BeforeSnapshot? then Volume(merged, v.snapshot)
    else Volume(merged, seed)
  }

  /** The volume on disk: the live file and the snapshot file beside it. */
  class ConfigVolume {
    var live: Doc
    var snapshot: Doc

    constructor (doc: Doc)
      ensures live == doc && snapshot == map[]
    {
      live, snapshot := doc, map[];
    }

    /** The live file is written only when the report names a change; the snapshot always is. No
        report means nothing ran or a write failed. */
    method ApplySeedMerge(seed: Doc, secrets: set<string>, fault: Fault)
      returns (report: Option<set<Entry>>, wrote: bool)
      modifies this
      ensures Volume(live, snapshot) == BootWith(old(Volume(live, snapshot)), seed, secrets, fault)
      ensures wrote <==> live != old(live)
      ensures report.Some? ==> snapshot == seed && report.value == Log(old(live), seed, old(snapshot), "", secrets)
      ensures report.None? <==>
                seed == map[] || fault.BeforeSnapshot? ||
                (fault.BeforeLive? && Merge(old(live), seed, old(snapshot), "", secrets) != old(live))
      ensures report.None? ==> snapshot == old(snapshot)
      ensures report.None? && (!fault.BeforeSnapshot? || seed == map[]) ==> live == old(live)
    {
      if seed == map[] {
        return None, false;
      }
      var merged, out := MergeThreeWay(live, seed, snapshot, "", secrets);
      ReportTellsChange(live, seed, snapshot, "", secrets);
      wrote := exists e :: e in out && !e.verdict.Kept?;
      if wrote {
        if fault.BeforeLive? {
          return None, false;
        }
        live := merged;
      }
      if fault.BeforeSnapshot? {
        return None, wrote;
      }
      snapshot := seed;
      report := Some(out);
    }
  }

  /** A second boot of the same image changes neither file. */
  lemma RebootIsIdentity(v: Volume, seed: Doc, secrets: set<string>)
    ensures Boot(Boot(v, seed, secrets), seed, secrets) == Boot(v, seed, secrets)
  {
    RemergeIsIdentity(v.live, seed, v.snapshot, "", secrets);
  }

  /** Merging the same seed again against the old snapshot changes nothing either. */
  lemma {:induction false} RemergeKeepsWithOldSnapshot(live: Doc, seed: Doc, last: Doc, prefix: string,
                                                       secrets: set<string>)
    ensures var merged := Merge(live, seed, last, prefix, secrets);
            Merge(merged, seed, last, prefix, secrets) == merged
    decreases Dict(seed)
  {
    var merged := Merge(live, seed, last, prefix, secrets);
    forall k ensures At(Merge(merged, seed, last, prefix, secrets), k) == At(merged, k) {
      MergeLooksUp(live, seed, last, prefix, secrets, k);
      MergeLooksUp(merged, seed, last, prefix, secrets, k);
      if k in seed && seed[k].Dict? {
        SeedIsFixed(seed[k].kids, Below(last, k), prefix + k + ".", secrets);
        if k in live && live[k].Dict? {
          RemergeKeepsWithOldSnapshot(live[k].kids, seed[k].kids, Below(last, k), prefix + k + ".", secrets);
        }
      }
    }
    SameLookups(Merge(merged, seed, last, prefix, secrets), merged);
  }

  /** Booting the same image once more repairs a boot that broke off, wherever it did. */
  lemma RebootRepairs(v: Volume, seed: Doc, secrets: set<string>, fault: Fault)
    ensures Boot(BootWith(v, seed, secrets, fault), seed, secrets) == Boot(v, seed, secrets)
  {
    RebootIsIdentity(v, seed, secrets);
    RemergeKeepsWithOldSnapshot(v.live, seed, v.snapshot, "", secrets);
  }

  /** What the document holds along the path are maps, as far as it goes, and no map is at its end. */
  predicate EndsInLeaf(d: Doc, p: Path)
    requires p != []
    decreases |p|
  {
    if |p| == 1 then !(p[0] in d && d[p[0]].Dict?)
    else p[0] in d ==> d[p[0]].Dict? && EndsInLeaf(d[p[0]].kids, p[1..])
  }

  /** The first document goes further along the path than the second, which lacks a section of it. */
  predicate GoesFurther(d: Doc, e: Doc, p: Path)
    requires p != []
    decreases |p|
  {
    |p| > 1 && p[0] in d && d[p[0]].Dict? &&
    (p[0] !in e || (e[p[0]].Dict? && GoesFurther(d[p[0]].kids, e[p[0]].kids, p[1..])))
  }

  /** What a merge leaves of three leaves: the seed's where the live one is missing or as last
      applied, and the live one otherwise. */
  function MergedLeaf(live: Option<Scalar>, seed: Option<Scalar>, last: Option<Scalar>): Option<Scalar> {
    if live.None? || live == last then seed else live
  }

  /** The same of three documents: inside a section the seed lacks, the live leaf stays as it is. */
  function LeafMerged(live: Doc, seed: Doc, last: Doc, p: Path): Option<Scalar>
    requires p != []
  {
    if GoesFurther(live, seed, p) then LeafAt(live, p)
    else MergedLeaf(LeafAt(live, p), LeafAt(seed, p), LeafAt(last, p))
  }

  lemma NothingAlong(p: Path)
    requires p != []
    ensures EndsInLeaf(map[], p) && LeafAt(map[], p).None?
    ensures forall d :: !GoesFurther(map[], d, p)
  {
  }

  lemma {:induction false} NotFurtherThanItself(d: Doc, p: Path)
    requires p != [] && EndsInLeaf(d, p)
    ensures !GoesFurther(d, d, p)
    decreases |p|
  {
    if |p| > 1 && p[0] in d { NotFurtherThanItself(d[p[0]].kids, p[1..]); }
  }

  /** Where all three documents end in a leaf, or in none, a merge decides by the three leaves and by
      the sections they have, and its result has the sections of the live document and the seed. */
  lemma {:induction false} MergeDecidesByLeaves(live: Doc, seed: Doc, last: Doc, prefix: string, secrets: set<string>,
                                                p: Path, next: Doc)
    requires p != [] && SecretFree(prefix, p, secrets)
    requires EndsInLeaf(live, p) && EndsInLeaf(seed, p) && EndsInLeaf(last, p) && EndsInLeaf(next, p)
    ensures var merged := Merge(live, seed, last, prefix, secrets);
            && EndsInLeaf(merged, p)
            && LeafAt(merged, p) == LeafMerged(live, seed, last, p)
            && (GoesFurther(merged, next, p) <==> GoesFurther(live, next, p) || GoesFurther(seed, next, p))
    decreases |p|
  {
    var k, merged := p[0], Merge(live, seed, last, prefix, secrets);
    MergeLooksUp(live, seed, last, prefix, secrets, k);
    if |p| == 1 {
      OneStep(merged, p);
      OneStep(live, p);
      OneStep(seed, p);
      OneStep(last, p);
    } else if k in live && k in seed {
      var n := if k in next then next[k].kids else map[];
      NothingAlong(p[1..]);
      MergeDecidesByLeaves(live[k].kids, seed[k].kids, Below(last, k), prefix + k + ".", secrets, p[1..], n);
    }
  }

  /** Both files of the volume end in a leaf, or in none, on a path free of credentials. */
  predicate PlainAt(v: Volume, secrets: set<string>, p: Path) {
    p != [] && SecretFree("", p, secrets) && EndsInLeaf(v.live, p) && EndsInLeaf(v.snapshot, p)
  }

  lemma BootDecidesByLeaves(v: Volume, seed: Doc, secrets: set<string>, p: Path, next: Doc)
    requires PlainAt(v, secrets, p) && seed != map[] && EndsInLeaf(seed, p) && EndsInLeaf(next, p)
    ensures var w := Boot(v, seed, secrets);
            && PlainAt(w, secrets, p) && LeafAt(w.live, p) == LeafMerged(v.live, seed, v.snapshot, p)
            && w.snapshot == seed
            && (GoesFurther(w.live, next, p) <==> GoesFurther(v.live, next, p) || GoesFurther(seed, next, p))
    ensures BootWith(v, seed, secrets, BeforeSnapshot) == Volume(Boot(v, seed, secrets).live, v.snapshot)
  {
    MergeDecidesByLeaves(v.live, seed, v.snapshot, "", secrets, p, next);
  }

  /** After a boot that broke off between the two files, the next image arrives exactly where the
      leaf that boot left is missing, or is what the old snapshot or the next image holds; in a section
      the next image lacks, only where it is missing. */
  lemma NextImageAfterABrokenBoot(v: Volume, seed: Doc, next: Doc, secrets: set<string>, p: Path)
    requires PlainAt(v, secrets, p)
    requires seed != map[] && EndsInLeaf(seed, p) && next != map[] && EndsInLeaf(next, p)
    ensures var w := BootWith(v, seed, secrets, BeforeSnapshot);
            var left, n := LeafMerged(v.live, seed, v.snapshot, p), LeafAt(next, p);
            LeafAt(Boot(w, next, secrets).live, p) == n <==>
            left.None? ||
            (!GoesFurther(v.live, next, p) && !GoesFurther(seed, next, p) &&
             (left == LeafAt(v.snapshot, p) || left == n))
  {
    BootDecidesByLeaves(v, seed, secrets, p, next);
    BootDecidesByLeaves(BootWith(v, seed, secrets, BeforeSnapshot), next, secrets, p, next);
    NotFurtherThanItself(next, p);
    FurtherHasNone(v.live, next, p);
    FurtherHasNone(seed, next, p);
  }

  /** A document that lacks a section of the path has nothing at its end. */
  lemma {:induction false} FurtherHasNone(d: Doc, e: Doc, p: Path)
    requires p != []
    ensures GoesFurther(d, e, p) ==> LeafAt(e, p).None?
    decreases |p|
  {
    if |p| > 1 && p[0] in d && d[p[0]].Dict? && p[0] in e && e[p[0]].Dict? {
      FurtherHasNone(d[p[0]].kids, e[p[0]].kids, p[1..]);
    }
  }

  /** Where the seed has every section the live file has, in terms of the four leaves alone. */
  lemma NextImageByItsLeaves(v: Volume, seed: Doc, next: Doc, secrets: set<string>, p: Path)
    requires PlainAt(v, secrets, p)
    requires seed != map[] && EndsInLeaf(seed, p) && next != map[] && EndsInLeaf(next, p)
    requires !GoesFurther(v.live, seed, p) && !GoesFurther(v.live, next, p) && !GoesFurther(seed, next, p)
    ensures var w := BootWith(v, seed, secrets, BeforeSnapshot);
            var live, last, s, n := LeafAt(v.live, p), LeafAt(v.snapshot, p), LeafAt(seed, p), LeafAt(next, p);
            LeafAt(Boot(w, next, secrets).live, p) == n <==>
            if live.None? || live == last then s.None? || s == last || s == n else live == n
  {
    NextImageAfterABrokenBoot(v, seed, next, secrets, p);
  }

  /** What the missing snapshot costs: the next boot ends as it would have after an unbroken one,
      except where the broken boot left a leaf that is in its image or in the old snapshot but not in
      both, and the next image has the leaf's section and another leaf there, or none. */
  lemma BrokenBootCostsTheRoll(v: Volume, seed: Doc, next: Doc, secrets: set<string>, p: Path)
    requires PlainAt(v, secrets, p)
    requires seed != map[] && EndsInLeaf(seed, p) && next != map[] && EndsInLeaf(next, p)
    ensures var broken, sound := BootWith(v, seed, secrets, BeforeSnapshot), Boot(v, seed, secrets);
            var left, last, s, n :=
              LeafMerged(v.live, seed, v.snapshot, p), LeafAt(v.snapshot, p), LeafAt(seed, p), LeafAt(next, p);
            LeafAt(Boot(broken, next, secrets).live, p) != LeafAt(Boot(sound, next, secrets).live, p) <==>
            && !GoesFurther(v.live, next, p) && !GoesFurther(seed, next, p)
            && left.Some? && left != n && (left == s) != (left == last)
    ensures var left, live, last, s :=
              LeafMerged(v.live, seed, v.snapshot, p), LeafAt(v.live, p), LeafAt(v.snapshot, p), LeafAt(seed, p);
            !GoesFurther(v.live, seed, p) ==>
              (left.Some? && (left == s) != (left == last) <==>
               s.Some? && s != last && (live.None? || live == last || live == s))
  {
    BootDecidesByLeaves(v, seed, secrets, p, next);
    BootDecidesByLeaves(BootWith(v, seed, secrets, BeforeSnapshot), next, secrets, p, next);
    BootDecidesByLeaves(Boot(v, seed, secrets), next, secrets, p, next);
  }

  function Card(name: string): Doc { map["name" := Leaf(Str(name))] }

  /** It happens, on a volume nobody edits: the broken boot changes the live file, and the next
      image's value, which would have arrived otherwise, does not. */
  lemma NextImageIsIgnored()
    ensures var v := Volume(Card("a"), Card("a"));
            var broken, sound := BootWith(v, Card("b"), {}, BeforeSnapshot), Boot(v, Card("b"), {});
            && LeafAt(v.live, ["name"]) == Some(Str("a")) && LeafAt(broken.live, ["name"]) == Some(Str("b"))
            && LeafAt(Boot(sound, Card("c"), {}).live, ["name"]) == Some(Str("c"))
            && LeafAt(Boot(broken, Card("c"), {}).live, ["name"]) == Some(Str("b"))
  {
    var p, v := ["name"], Volume(Card("a"), Card("a"));
    CardReads("a");
    CardReads("b");
    CardReads("c");
    assert p[1..] == [] && PlainAt(v, {}, p);
    BootDecidesByLeaves(v, Card("b"), {}, p, Card("c"));
    BootDecidesByLeaves(BootWith(v, Card("b"), {}, BeforeSnapshot), Card("c"), {}, p, Card("c"));
    BootDecidesByLeaves(Boot(v, Card("b"), {}), Card("c"), {}, p, Card("c"));
    assert "a"[0] != "b"[0] && "b"[0] != "c"[0];
  }

  lemma CardReads(name: string)
    ensures LeafAt(Card(name), ["name"]) == Some(Str(name)) && EndsInLeaf(Card(name), ["name"]) && Card(name) != map[]
  {
    OneStep(Card(name), ["name"]);
    assert "name" in Card(name);
  }

  /** Over further images, and for documents of any shape, a leaf the broken boot changed counts as
      the operator's: it stays through every roll until some seed ships that very value. */
  lemma BrokenBootPinsItsChanges(v: Volume, seed: Doc, seeds: seq<Doc>, secrets: set<string>, p: Path, w: Scalar)
    requires p != [] && seed != map[]
    requires LeafAt(Merge(v.live, seed, v.snapshot, "", secrets), p) == Some(w) && LeafAt(v.snapshot, p) != Some(w)
    requires forall i :: 0 <= i < |seeds| - 1 ==> LeafAt(seeds[i], p) != Some(w)
    ensures LeafAt(Rolled(BootWith(v, seed, secrets, BeforeSnapshot), seeds, secrets).live, p) == Some(w)
  {
    OperatorWinsEveryRoll(BootWith(v, seed, secrets, BeforeSnapshot), seeds, secrets, p, w);
  }

  /** The two documents have the same shape along the path and the same leaf, or none, at its end. */
  predicate InStep(live: Doc, last: Doc, p: Path)
    requires p != []
    decreases |p|
  {
    var k := p[0];
    if k in last && last[k].Dict? && |p| > 1
    then k in live && live[k].Dict? && InStep(live[k].kids, last[k].kids, p[1..])
    else At(live, k) == At(last, k)
  }

  /** The roll neither drops nor flattens a section the path runs through, and puts no section
      where the path ends. */
  predicate KeepsSections(last: Doc, seed: Doc, p: Path)
    requires p != []
    decreases |p|
  {
    var k := p[0];
    if k in last && last[k].Dict?
    then |p| > 1 && k in seed && seed[k].Dict? && KeepsSections(last[k].kids, seed[k].kids, p[1..])
    else !(Get(Dict(seed), p).Some? && Get(Dict(seed), p).value.Dict?)
  }

  lemma {:induction false} InStepWithItself(d: Doc, p: Path)
    requires p != []
    ensures InStep(d, d, p)
    decreases |p|
  {
    if p[0] in d && d[p[0]].Dict? && |p| > 1 { InStepWithItself(d[p[0]].kids, p[1..]); }
  }

  lemma {:induction false} InStepReadsTheSame(live: Doc, last: Doc, p: Path)
    requires p != [] && InStep(live, last, p)
    ensures LeafAt(live, p) == LeafAt(last, p)
    decreases |p|
  {
    if p[0] in last && last[p[0]].Dict? && |p| > 1 {
      InStepReadsTheSame(live[p[0]].kids, last[p[0]].kids, p[1..]);
    }
  }

  lemma {:induction false} RollStaysInStep(live: Doc, seed: Doc, last: Doc, prefix: string, secrets: set<string>,
                                           p: Path)
    requires p != [] && SecretFree(prefix, p, secrets)
    requires InStep(live, last, p) && KeepsSections(last, seed, p)
    ensures InStep(Merge(live, seed, last, prefix, secrets), seed, p)
    decreases |p|
  {
    var k := p[0];
    MergeLooksUp(live, seed, last, prefix, secrets, k);
    if k in last && last[k].Dict? {
      RollStaysInStep(live[k].kids, seed[k].kids, last[k].kids, prefix + k + ".", secrets, p[1..]);
    } else {
      assert At(Merge(live, seed, last, prefix, secrets), k) == At(seed, k);
      if k in seed && seed[k].Dict? && |p| > 1 { InStepWithItself(seed[k].kids, p[1..]); }
    }
  }

  function Latest(first: Doc, seeds: seq<Doc>): Doc {
    if seeds == [] then first else seeds[|seeds| - 1]
  }

  /** Every roll keeps the sections along the path of the seed applied before it. */
  predicate RollsKeepSections(first: Doc, seeds: seq<Doc>, p: Path)
    requires p != []
  {
    seeds == [] ||
    (var n := |seeds| - 1;
     && seeds[n] != map[]
     && KeepsSections(Latest(first, seeds[..n]), seeds[n], p)
     && RollsKeepSections(first, seeds[..n], p))
  }

  /** Over any sequence of image rolls, a path that starts in step with the snapshot reads the
      latest seed: new, changed and retracted leaves all arrive. */
  lemma {:induction false} RollsTrackTheImage(v: Volume, seeds: seq<Doc>, secrets: set<string>, p: Path)
    requires p != [] && SecretFree("", p, secrets)
    requires InStep(v.live, v.snapshot, p) && RollsKeepSections(v.snapshot, seeds, p)
    ensures var w := Rolled(v, seeds, secrets);
            && w.snapshot == Latest(v.snapshot, seeds)
            && InStep(w.live, w.snapshot, p) && LeafAt(w.live, p) == LeafAt(w.snapshot, p)
    decreases |seeds|
  {
    if seeds != [] {
      var n := |seeds| - 1;
      var before := Rolled(v, seeds[..n], secrets);
      RollsTrackTheImage(v, seeds[..n], secrets, p);
      RollStaysInStep(before.live, seeds[n], before.snapshot, "", secrets, p);
    }
    var w := Rolled(v, seeds, secrets);
    InStepReadsTheSame(w.live, w.snapshot, p);
  }

  /** No key of the document is a credential. */
  predicate NoCredentials(d: Doc, prefix: string, secrets: set<string>)
    decreases Dict(d)
  {
    forall k :: k in d ==>
      prefix + k !in secrets && (d[k].Dict? ==> NoCredentials(d[k].kids, prefix + k + ".", secrets))
  }

  lemma {:induction false} MergeWithoutCredentials(live: Doc, seed: Doc, last: Doc, prefix: string,
                                                   secrets: set<string>)
    requires NoCredentials(seed, prefix, secrets) && NoCredentials(last, prefix, secrets)
    ensures Merge(live, seed, last, prefix, secrets) == Merge(live, seed, last, prefix, {})
    decreases Dict(seed)
  {
    var a, b := Merge(live, seed, last, prefix, secrets), Merge(live, seed, last, prefix, {});
    forall k ensures At(a, k) == At(b, k) {
      MergeLooksUp(live, seed, last, prefix, secrets, k);
      MergeLooksUp(live, seed, last, prefix, {}, k);
      if k in seed && seed[k].Dict? && k in live && live[k].Dict? {
        MergeWithoutCredentials(live[k].kids, seed[k].kids, Below(last, k), prefix + k + ".", secrets);
      }
    }
    SameLookups(a, b);
  }

  /** Seeds without credentials, none of which drops a map section of the one before it. */
  predicate RollsDropNoSection(first: Doc, seeds: seq<Doc>, secrets: set<string>) {
    seeds == [] ||
    (var n := |seeds| - 1;
     && seeds[n] != map[] && NoCredentials(seeds[n], "", secrets)
     && DropsNoSection(Latest(first, seeds[..n]), seeds[n])
     && RollsDropNoSection(first, seeds[..n], secrets))
  }

  /** A document nobody edits is the latest seed itself after every such sequence of rolls, those
      that turn a section into a scalar or back included. */
  lemma {:induction false} UntouchedRollsReplayTheImage(first: Doc, seeds: seq<Doc>, secrets: set<string>)
    requires NoCredentials(first, "", secrets) && RollsDropNoSection(first, seeds, secrets)
    ensures Rolled(Volume(first, first), seeds, secrets) == Volume(Latest(first, seeds), Latest(first, seeds))
    decreases |seeds|
  {
    if seeds != [] {
      var n := |seeds| - 1;
      var before := Latest(first, seeds[..n]);
      UntouchedRollsReplayTheImage(first, seeds[..n], secrets);
      assert NoCredentials(before, "", secrets) by {
        if n > 0 { assert seeds[..n][n - 1] == seeds[n - 1]; }
      }
      MergeWithoutCredentials(before, seeds[n], before, "", secrets);
      UntouchedBecomesSeed(before, seeds[n], "");
    }
  }

  /** A volume seeded verbatim has no snapshot; its first boot changes nothing and records one,
      after which the whole document is in step. */
  lemma FreshVolumeIsInStep(seed: Doc, secrets: set<string>, p: Path)
    requires p != [] && seed != map[]
    ensures Boot(Volume(seed, map[]), seed, secrets) == Volume(seed, seed)
    ensures InStep(seed, seed, p)
  {
    SeedIsFixed(seed, map[], "", secrets);
    InStepWithItself(seed, p);
  }

  /** A leaf the operator holds survives every roll, for as long as no seed in between ships that
      very value itself. */
  lemma {:induction false} OperatorWinsEveryRoll(v: Volume, seeds: seq<Doc>, secrets: set<string>, p: Path, w: Scalar)
    requires p != [] && LeafAt(v.live, p) == Some(w) && LeafAt(v.snapshot, p) != Some(w)
    requires forall i :: 0 <= i < |seeds| - 1 ==> LeafAt(seeds[i], p) != Some(w)
    ensures LeafAt(Rolled(v, seeds, secrets).live, p) == Some(w)
    ensures seeds == [] || LeafAt(seeds[|seeds| - 1], p) != Some(w) ==>
              LeafAt(Rolled(v, seeds, secrets).snapshot, p) != Some(w)
    decreases |seeds|
  {
    if seeds != [] {
      var n := |seeds| - 1;
      OperatorWinsEveryRoll(v, seeds[..n], secrets, p, w);
      var before := Rolled(v, seeds[..n], secrets);
      assert n > 0 ==> seeds[..n][n - 1] == seeds[n - 1];
      OperatorWins(before.live, seeds[n], before.snapshot, "", secrets, p, w);
    }
  }

  // ---- Credentials -----------------------------------------------------------------------------------

  /** The merge takes this key of the seed as it stands, without descending into it. */
  predicate TakenWhole(live: Doc, seed: Doc, last: Doc, k: string) {
    k in seed && !(seed[k].Dict? && k in live && live[k].Dict?) &&
    (k !in live || (k in last && live[k] == last[k]))
  }

  /** A credential is skipped wherever the merge looks at its own key, so what the live document
      holds for it changes exactly when its section is taken whole from the seed and the two
      differ on it. */
  lemma CredentialRidesOnlyAWholeSection(live: Doc, seed: Doc, last: Doc, secrets: set<string>, s: string, k: string)
    requires s + "." + k in secrets && s !in secrets
    ensures var merged := Merge(live, seed, last, "", secrets);
            Get(Dict(merged), [s, k]) != Get(Dict(live), [s, k]) <==>
            TakenWhole(live, seed, last, s) && Get(Dict(seed), [s, k]) != Get(Dict(live), [s, k])
  {
    var merged := Merge(live, seed, last, "", secrets);
    assert "" + s == s;
    MergeLooksUp(live, seed, last, "", secrets, s);
    TwoStep(merged, s, k);
    TwoStep(live, s, k);
    TwoStep(seed, s, k);
    if s in seed && seed[s].Dict? && s in live && live[s].Dict? {
      MergeLooksUp(live[s].kids, seed[s].kids, Below(last, s), s + ".", secrets, k);
    }
  }

  lemma TwoStep(d: Doc, s: string, k: string)
    ensures Get(Dict(d), [s, k]) == if s in d && d[s].Dict? then At(d[s].kids, k) else None
  {
    assert [s, k][1..] == [k];
    if s in d && d[s].Dict? && k in d[s].kids {
      assert Get(d[s], [k]) == Get(d[s].kids[k], [k][1..]);
    }
  }

  /** A live document without the section takes it from the seed, credential included. */
  lemma CredentialArrivesWithItsSection(live: Doc, seed: Doc, last: Doc, secrets: set<string>, s: string, k: string)
    requires s + "." + k in secrets && s !in secrets
    requires s !in live && Get(Dict(seed), [s, k]).Some?
    ensures Get(Dict(live), [s, k]).None?
    ensures Get(Dict(Merge(live, seed, last, "", secrets)), [s, k]) == Get(Dict(seed), [s, k])
  {
    var merged := Merge(live, seed, last, "", secrets);
    TwoStep(live, s, k);
    TwoStep(seed, s, k);
    TwoStep(merged, s, k);
    assert "" + s == s;
    MergeLooksUp(live, seed, last, "", secrets, s);
  }
}
