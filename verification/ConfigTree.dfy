/** Configuration documents: nested maps of scalars, addressed by paths of keys; the
    cascade that overlays one on another; and the reset that removes one key again. */
module ConfigTree {
  import opened Strings
  import opened Wrappers

  /** A list is one value: it is compared and replaced whole. */
  datatype Scalar = Null | Bool(b: bool) | Num(n: real) | Str(s: string) | Items(items: seq<Scalar>)

  datatype Tree = Leaf(value: Scalar) | Dict(kids: map<string, Tree>)

  type Doc = map<string, Tree>

  type Path = seq<string>

  /** Walks a path down a tree; nothing at the first missing or non-map segment. */
  function Get(t: Tree, p: Path): Option<Tree> {
    if p == [] then Some(t)
    else if t.Dict? && p[0] in t.kids then Get(t.kids[p[0]], p[1..])
    else None
  }

  lemma {:induction false} GetJoin(t: Tree, p: Path, q: Path)
    ensures Get(t, p + q) == if Get(t, p).None? then None else Get(Get(t, p).value, q)
  {
    if p == [] {
      assert p + q == q;
    } else if t.Dict? && p[0] in t.kids {
      assert (p + q)[1..] == p[1..] + q;
      GetJoin(t.kids[p[0]], p[1..], q);
    }
  }

  // ---- The cascade ------------------------------------------------------------------------

  /** Overlays one map on another: maps merge key by key, anything else is replaced whole. */
  function Merged(base: Doc, overlay: Doc): Doc
    decreases Dict(overlay)
  {
    map k | k in base.Keys + overlay.Keys ::
      if k !in overlay then base[k]
      else if overlay[k].Dict? && k in base && base[k].Dict?
      then Dict(Merged(base[k].kids, overlay[k].kids))
      else overlay[k]
  }

  method DeepMerge(base: Doc, overlay: Doc) returns (merged: Doc)
    ensures merged == Merged(base, overlay)
    decreases Dict(overlay)
  {
    merged := base;
    var todo := overlay.Keys;
    while todo != {}
      invariant todo <= overlay.Keys
      invariant merged.Keys == base.Keys + (overlay.Keys - todo)
      invariant forall k :: k in merged ==>
                  merged[k] == if k in overlay && k !in todo then Merged(base, overlay)[k] else base[k]
      decreases todo
    {
      var k :| k in todo;
      if overlay[k].Dict? && k in merged && merged[k].Dict? {
        var inner := DeepMerge(merged[k].kids, overlay[k].kids);
        merged := merged[k := Dict(inner)];
      } else {
        merged := merged[k := overlay[k]];
      }
      todo := todo - {k};
    }
  }

  /** An overlay that sets a leaf wins at that leaf, whatever the base holds there. */
  lemma {:induction false} OverlayLeafWins(base: Doc, overlay: Doc, p: Path, v: Scalar)
    requires p != [] && Get(Dict(overlay), p) == Some(Leaf(v))
    ensures Get(Dict(Merged(base, overlay)), p) == Some(Leaf(v))
    decreases |p|
  {
    var k := p[0];
    if overlay[k].Dict? && k in base && base[k].Dict? {
      OverlayLeafWins(base[k].kids, overlay[k].kids, p[1..], v);
    }
  }

  /** Where the overlay says nothing along a path — the path leaves it at a map — the base
      shows through. */
  ghost predicate SilentAlong(t: Tree, p: Path) {
    p == [] || (t.Dict? && (p[0] !in t.kids || (|p| > 1 && SilentAlong(t.kids[p[0]], p[1..]))))
  }

  lemma {:induction false} SilentMeansAbsent(t: Tree, p: Path)
    requires p != [] && SilentAlong(t, p)
    ensures Get(t, p) == None
  {
    if p[0] in t.kids { SilentMeansAbsent(t.kids[p[0]], p[1..]); }
  }

  lemma {:induction false} BaseShowsThrough(base: Doc, overlay: Doc, p: Path)
    requires p != [] && SilentAlong(Dict(overlay), p)
    ensures Get(Dict(Merged(base, overlay)), p) == Get(Dict(base), p)
    decreases |p|
  {
    var k := p[0];
    if k in overlay {
      assert overlay[k].Dict? && |p| > 1;
      if k in base && base[k].Dict? {
        BaseShowsThrough(base[k].kids, overlay[k].kids, p[1..]);
      } else {
        SilentMeansAbsent(overlay[k], p[1..]);
      }
    }
  }

  // ---- Reset to inherited ----------------------------------------------------------------------

  /** Deletes a path that is there, and every ancestor the deletion leaves empty. */
  function Pruned(doc: Doc, p: Path): Doc
    requires p != [] && Get(Dict(doc), p).Some?
    decreases |p|
  {
    if |p| == 1 then doc - {p[0]} else
    assert Get(doc[p[0]], p[1..]).Some? && p[1..] != [];
    var child := Pruned(doc[p[0]].kids, p[1..]);
    if child == map[] then doc - {p[0]} else doc[p[0] := Dict(child)]
  }

  /** A key that is not there is skipped. */
  function Popped(doc: Doc, p: Path): Doc
    requires p != []
  {
    if Get(Dict(doc), p).None? then doc else Pruned(doc, p)
  }

  function PoppedAll(doc: Doc, keys: seq<string>): Doc {
    if keys == [] then doc else Popped(PoppedAll(doc, keys[..|keys| - 1]), Split(keys[|keys| - 1], '.'))
  }

  /** Walks to the leaf's parent, deletes, and rebuilds the chain, dropping emptied maps. */
  method PopKey(doc: Doc, parts: Path) returns (r: Doc)
    requires parts != []
    ensures r == Popped(doc, parts)
  {
    var chain := [doc];
    var last := |parts| - 1;
    for i := 0 to last
      invariant |chain| == i + 1 && chain[0] == doc
      invariant Get(Dict(doc), parts) == Get(Dict(chain[i]), parts[i..])
      invariant forall k :: 0 <= k < i ==> parts[k] in chain[k] && chain[k][parts[k]] == Dict(chain[k + 1])
    {
      var cur := chain[i];
      assert parts[i..][1..] == parts[i + 1..];
      if parts[i] !in cur || !cur[parts[i]].Dict? {
        return doc;
      }
      chain := chain + [cur[parts[i]].kids];
    }
    if parts[last] !in chain[last] {
      return doc;
    }
    r := chain[last] - {parts[last]};
    var j := last;
    while j > 0
      invariant 0 <= j <= last
      invariant Get(Dict(chain[j]), parts[j..]).Some?
      invariant r == Pruned(chain[j], parts[j..])
    {
      assert parts[j - 1..][1..] == parts[j..];
      j := j - 1;
      r := if r == map[] then chain[j] - {parts[j]} else chain[j][parts[j] := Dict(r)];
    }
  }

  method PopKeysFromYaml(doc: Doc, keys: seq<string>) returns (r: Doc)
    ensures r == PoppedAll(doc, keys)
  {
    r := doc;
    for i := 0 to |keys|
      invariant r == PoppedAll(doc, keys[..i])
    {
      assert keys[..i + 1][..i] == keys[..i];
      r := PopKey(r, Split(keys[i], '.'));
    }
    assert keys[..|keys|] == keys;
  }

  /** After a pop the document is silent along the whole path: nothing at it, no scalar above
      it; and no ancestor is left an empty map. */
  lemma {:induction false} PopSilences(doc: Doc, p: Path)
    requires p != [] && Get(Dict(doc), p).Some?
    ensures SilentAlong(Dict(Pruned(doc, p)), p)
    ensures forall n :: 0 < n < |p| ==> Get(Dict(Pruned(doc, p)), p[..n]) != Some(Dict(map[]))
    decreases |p|
  {
    if |p| > 1 {
      var kids := doc[p[0]].kids;
      PopSilences(kids, p[1..]);
      forall n | 0 < n < |p| ensures Get(Dict(Pruned(doc, p)), p[..n]) != Some(Dict(map[])) {
        assert p[..n][1..] == p[1..][..n - 1];
        if n == 1 { assert p[1..][..0] == []; }
      }
    }
  }

  /** Nothing off the popped path changes: every other leaf survives with its value. */
  lemma {:induction false} OtherLeavesSurvive(doc: Doc, p: Path, q: Path, v: Scalar)
    requires p != [] && Get(Dict(doc), p).Some?
    requires q != [] && Get(Dict(doc), q) == Some(Leaf(v)) && !(p <= q)
    ensures Get(Dict(Pruned(doc, p)), q) == Some(Leaf(v))
    decreases |p|
  {
    if q[0] == p[0] && |p| > 1 {
      var kids := doc[p[0]].kids;
      assert q[1..] != [] && !(p[1..] <= q[1..]) by {
        assert p == [p[0]] + p[1..] && q == [q[0]] + q[1..];
      }
      OtherLeavesSurvive(kids, p[1..], q[1..], v);
      assert q[1..][0] in Pruned(kids, p[1..]);
    }
  }

  /** Popping a key an agent sets makes its merged lookup exactly the host's, whatever shapes
      the two documents have along the key. */
  lemma ResetFallsBackToHost(host: Doc, agent: Doc, p: Path)
    requires p != [] && Get(Dict(agent), p).Some?
    ensures Get(Dict(Merged(host, Popped(agent, p))), p) == Get(Dict(host), p)
  {
    PopSilences(agent, p);
    BaseShowsThrough(host, Pruned(agent, p), p);
  }

  /** A pop brings nothing new in. */
  lemma {:induction false} AbsentStaysAbsent(doc: Doc, p: Path, q: Path)
    requires p != [] && Get(Dict(doc), p).Some?
    requires q != [] && Get(Dict(doc), q).None?
    ensures Get(Dict(Pruned(doc, p)), q).None?
    decreases |p|
  {
    if q[0] == p[0] && |p| > 1 {
      assert Get(doc[p[0]], q[1..]).None?;
      AbsentStaysAbsent(doc[p[0]].kids, p[1..], q[1..]);
    }
  }

  lemma {:induction false} PoppedKeysAreAbsent(doc: Doc, keys: seq<string>, i: nat)
    requires i < |keys|
    ensures Get(Dict(PoppedAll(doc, keys)), Split(keys[i], '.')).None?
    decreases |keys|
  {
    var before, p := PoppedAll(doc, keys[..|keys| - 1]), Split(keys[|keys| - 1], '.');
    if i < |keys| - 1 {
      PoppedKeysAreAbsent(doc, keys[..|keys| - 1], i);
      if Get(Dict(before), p).Some? { AbsentStaysAbsent(before, p, Split(keys[i], '.')); }
    } else if Get(Dict(before), p).Some? {
      PopSilences(before, p);
      SilentMeansAbsent(Dict(Pruned(before, p)), p);
    }
  }

  lemma {:induction false} PoppingAbsentKeysChangesNothing(doc: Doc, keys: seq<string>)
    requires forall i :: 0 <= i < |keys| ==> Get(Dict(doc), Split(keys[i], '.')).None?
    ensures PoppedAll(doc, keys) == doc
    decreases |keys|
  {
    if keys != [] { PoppingAbsentKeysChangesNothing(doc, keys[..|keys| - 1]); }
  }

  /** Resetting the same keys again changes nothing, even when one key is a prefix of another. */
  lemma ResetIsIdempotent(doc: Doc, keys: seq<string>)
    ensures PoppedAll(PoppedAll(doc, keys), keys) == PoppedAll(doc, keys)
  {
    forall i | 0 <= i < |keys| ensures Get(Dict(PoppedAll(doc, keys)), Split(keys[i], '.')).None? {
      PoppedKeysAreAbsent(doc, keys, i);
    }
    PoppingAbsentKeysChangesNothing(PoppedAll(doc, keys), keys);
  }

  // ---- Model identity ----------------------------------------------------------------------------

  const IDENTITY := ["name", "provider"]

  /** Empty, false, zero, null, or a string of white space. */
  predicate Blank(t: Tree) {
    match t
    case Dict(kids) => kids == map[]
    case Leaf(Null) => true
    case Leaf(Bool(b)) => !b
    case Leaf(Num(n)) => n == 0.0
    case Leaf(Str(s)) => forall i :: 0 <= i < |s| ==> IsSpace(s[i])
    case Leaf(Items(items)) => items == []
  }

  function ModelOf(doc: Doc): Option<Doc> {
    if "model" in doc && doc["model"].Dict? then Some(doc["model"].kids) else None
  }

  predicate NamesIdentity(model: Doc) {
    exists k :: k in IDENTITY && k in model && !Blank(model[k])
  }

  /** The host's identity keys the agent does not name itself, when the agent names any. */
  function DroppedKeys(host: Doc, agent: Doc): set<string> {
    if ModelOf(agent).None? || ModelOf(host).None? || !NamesIdentity(ModelOf(agent).value) then {}
    else set k | k in IDENTITY && k in ModelOf(host).value && k !in ModelOf(agent).value
  }

  function HostWithout(host: Doc, keys: set<string>): Doc {
    if keys == {} then host
    else if ModelOf(host).None? then host
    else host["model" := Dict(ModelOf(host).value - keys)]
  }

  /** The document a configuration load parses: the host layer, stripped of any model identity
      that is not its to give, under the agent's own document. */
  function Loaded(host: Doc, agent: Doc): Doc {
    if host == map[] then agent else Merged(HostWithout(host, DroppedKeys(host, agent)), agent)
  }

  method DropHostModelIdentity(host: Doc, agent: Doc) returns (r: Doc)
    ensures r == HostWithout(host, DroppedKeys(host, agent))
  {
    r := host;
    if "model" !in agent || !agent["model"].Dict? || "model" !in host || !host["model"].Dict? {
      return;
    }
    var mine, theirs := agent["model"].kids, host["model"].kids;
    var named, dropped := false, {};
    for i := 0 to |IDENTITY|
      invariant named <==> exists j :: 0 <= j < i && IDENTITY[j] in mine && !Blank(mine[IDENTITY[j]])
      invariant forall k :: k in dropped <==> k in IDENTITY[..i] && k in theirs && k !in mine
    {
      named := named || (IDENTITY[i] in mine && !Blank(mine[IDENTITY[i]]));
      if IDENTITY[i] in theirs && IDENTITY[i] !in mine {
        dropped := dropped + {IDENTITY[i]};
      }
    }
    assert named <==> NamesIdentity(mine);
    if named {
      assert dropped == DroppedKeys(host, agent);
      if dropped != {} {
        r := host["model" := Dict(theirs - dropped)];
      }
    }
  }

  method ReadConfigDocs(host: Doc, agent: Doc) returns (merged: Doc)
    ensures merged == Loaded(host, agent)
  {
    if host == map[] {
      return agent;
    }
    var base := DropHostModelIdentity(host, agent);
    merged := DeepMerge(base, agent);
  }

  /** One identity key is the agent's own and another reaches the load from the host. */
  ghost predicate MixedIdentity(host: Doc, agent: Doc) {
    var merged := ModelOf(Loaded(host, agent));
    merged.Some? && ModelOf(agent).Some? &&
    exists mine, theirs :: mine in IDENTITY && theirs in IDENTITY
      && mine in ModelOf(agent).value && theirs !in ModelOf(agent).value && theirs in merged.value
  }

  /** Name and provider come one from the agent and one from the host exactly when the agent
      carries only blank identity keys, one of them, and the host sets the other. */
  lemma IdentityMixesOnlyWhenBlank(host: Doc, agent: Doc)
    ensures MixedIdentity(host, agent) <==>
            ModelOf(agent).Some? && ModelOf(host).Some? && !NamesIdentity(ModelOf(agent).value) &&
            exists mine, theirs :: mine in IDENTITY && theirs in IDENTITY
              && mine in ModelOf(agent).value && theirs !in ModelOf(agent).value && theirs in ModelOf(host).value
  {
    if ModelOf(agent).Some? && ModelOf(host).Some? {
      var a, h, dropped := ModelOf(agent).value, ModelOf(host).value, DroppedKeys(host, agent);
      assert ModelOf(HostWithout(host, dropped)).value == h - dropped;
      assert ModelOf(Loaded(host, agent)).value == Merged(h - dropped, a);
    }
  }

  /** It happens: an agent whose name is a blank text takes the host's provider and keeps its own
      blank name; with any other text for a name it takes none. */
  lemma BlankNameTakesTheHostsProvider(name: string)
    ensures var host := map["model" := Dict(map["provider" := Leaf(Str("p"))])];
            var agent := map["model" := Dict(map["name" := Leaf(Str(name))])];
            var model := ModelOf(Loaded(host, agent));
            && model.Some? && "name" in model.value && model.value["name"] == Leaf(Str(name))
            && ("provider" in model.value <==> forall i :: 0 <= i < |name| ==> IsSpace(name[i]))
  {
    var theirs: Doc := map["provider" := Leaf(Str("p"))];
    var mine: Doc := map["name" := Leaf(Str(name))];
    var host: Doc := map["model" := Dict(theirs)];
    var agent: Doc := map["model" := Dict(mine)];
    assert IDENTITY[0] == "name" && IDENTITY[1] == "provider";
    assert NamesIdentity(mine) <==> !Blank(mine["name"]) by { assert "name" in IDENTITY; }
    assert "provider" in IDENTITY;
    var dropped := DroppedKeys(host, agent);
    assert dropped == if Blank(mine["name"]) then {} else {"provider"};
    assert theirs - {} == theirs;
    assert ModelOf(HostWithout(host, dropped)).value == theirs - dropped;
    assert ModelOf(Loaded(host, agent)).value == Merged(theirs - dropped, mine);
  }

  lemma ModelKeyLookup(doc: Doc, k: string)
    ensures Get(Dict(doc), ["model", k]) ==
            if ModelOf(doc).Some? && k in ModelOf(doc).value then Some(ModelOf(doc).value[k]) else None
  {
    assert ["model", k][1..] == [k];
    if "model" in doc {
      assert Get(doc["model"], [k]) == if doc["model"].Dict? && k in doc["model"].kids
                                       then Get(doc["model"].kids[k], [k][1..]) else None;
    }
  }

  /** An agent that names its model gets nothing of the host's identity (an identity key set to a
      map aside); one that carries no identity key inherits the host's pair whole. */
  lemma IdentityTravelsTogether(host: Doc, agent: Doc, k: string)
    requires k in IDENTITY
    ensures ModelOf(agent).Some? && NamesIdentity(ModelOf(agent).value) ==>
              var own := Get(Dict(agent), ["model", k]);
              (own.Some? && own.value.Dict?) || Get(Dict(Loaded(host, agent)), ["model", k]) == own
    ensures "model" !in agent || (ModelOf(agent).Some? && forall i :: i in IDENTITY ==> i !in ModelOf(agent).value) ==>
              Get(Dict(Loaded(host, agent)), ["model", k]) == Get(Dict(host), ["model", k])
  {
    ModelKeyLookup(host, k);
    ModelKeyLookup(agent, k);
    ModelKeyLookup(Loaded(host, agent), k);
    if ModelOf(agent).Some? && ModelOf(host).Some? {
      var a, h, dropped := ModelOf(agent).value, ModelOf(host).value, DroppedKeys(host, agent);
      assert ModelOf(HostWithout(host, dropped)).value == h - dropped;
      assert ModelOf(Loaded(host, agent)).value == Merged(h - dropped, a);
    }
  }

  /** Through a load: popping a key the agent sets gives the host's value, unless the key is, or is
      inside, an identity key that the host then loses because the agent still names its model. */
  lemma ResetAtLoad(host: Doc, agent: Doc, p: Path)
    requires p != [] && Get(Dict(agent), p).Some?
    ensures var left := Popped(agent, p);
            var lost := |p| > 1 && p[0] == "model" && p[1] in DroppedKeys(host, left);
            && Get(Dict(Loaded(host, left)), p) == (if lost then None else Get(Dict(host), p))
            && (Get(Dict(Loaded(host, left)), p) == Get(Dict(host), p) <==> !(lost && Get(Dict(host), p).Some?))
  {
    var left := Popped(agent, p);
    var dropped := DroppedKeys(host, left);
    if host == map[] {
      PopSilences(agent, p);
      SilentMeansAbsent(Dict(left), p);
    } else {
      ResetFallsBackToHost(HostWithout(host, dropped), agent, p);
      WithoutReads(host, dropped, p);
      if |p| == 1 && p[0] == "model" { assert "model" !in left; }
    }
  }

  /** The host layer without some model keys reads the same off those keys. */
  lemma WithoutReads(host: Doc, keys: set<string>, p: Path)
    requires p != [] && !(|p| == 1 && p[0] == "model" && keys != {})
    ensures Get(Dict(HostWithout(host, keys)), p) ==
            if |p| > 1 && p[0] == "model" && p[1] in keys then None else Get(Dict(host), p)
  {
    if |p| > 1 && p[0] == "model" && keys != {} && ModelOf(host).Some? {
      var model := ModelOf(host).value;
      assert Get(Dict(host), p) == Get(Dict(model), p[1..]);
      assert Get(Dict(HostWithout(host, keys)), p) == Get(Dict(model - keys), p[1..]);
      assert p[1..][0] == p[1];
    }
  }

  /** The document names its model by an identity key other than `k`. */
  predicate NamesAnother(doc: Doc, k: string) {
    ModelOf(doc).Some? && NamesIdentity(ModelOf(doc).value - {k})
  }

  /** For an identity key itself: the reset reaches the host's value exactly when the host has none
      or the agent names no other identity key. */
  lemma ResetOfAnIdentityKey(host: Doc, agent: Doc, k: string)
    requires k in IDENTITY && Get(Dict(agent), ["model", k]).Some?
    ensures Get(Dict(Loaded(host, Popped(agent, ["model", k]))), ["model", k]) == Get(Dict(host), ["model", k]) <==>
            Get(Dict(host), ["model", k]).None? || !NamesAnother(agent, k)
  {
    ModelKeyLookup(agent, k);
    ModelKeyLookup(host, k);
    PoppedModelKey(agent, k);
    ResetAtLoad(host, agent, ["model", k]);
  }

  function Naming(model: Doc): Doc { map["model" := Dict(model)] }

  /** It happens: the host names a model, the agent a model and a provider; after its name is reset
      a load finds none. */
  lemma ResetCanLoseTheName()
    ensures var host := Naming(map["name" := Leaf(Str("h"))]);
            var agent := Naming(map["name" := Leaf(Str("a")), "provider" := Leaf(Str("p"))]);
            && Get(Dict(host), ["model", "name"]) == Some(Leaf(Str("h")))
            && Get(Dict(Loaded(host, Popped(agent, ["model", "name"]))), ["model", "name"]) == None
  {
    var host := Naming(map["name" := Leaf(Str("h"))]);
    var agent := Naming(map["name" := Leaf(Str("a")), "provider" := Leaf(Str("p"))]);
    var left := ModelOf(agent).value - {"name"};
    ModelKeyLookup(agent, "name");
    ModelKeyLookup(host, "name");
    PoppedModelKey(agent, "name");
    assert IDENTITY[1] == "provider" && "provider" in left;
    assert !Blank(left["provider"]) by { assert !IsSpace("p"[0]); }
    ResetAtLoad(host, agent, ["model", "name"]);
  }

  lemma PoppedModelKey(agent: Doc, k: string)
    requires ModelOf(agent).Some? && k in ModelOf(agent).value
    ensures Get(Dict(agent), ["model", k]).Some?
    ensures ModelOf(Popped(agent, ["model", k])) ==
            var rest := ModelOf(agent).value - {k};
            if rest == map[] then None else Some(rest)
  {
    ModelKeyLookup(agent, k);
    var p := ["model", k];
    assert p[1..] == [k];
    assert Get(agent["model"], p[1..]).Some?;
    assert Pruned(agent["model"].kids, p[1..]) == agent["model"].kids - {k};
  }
}
