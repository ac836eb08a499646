/** Credentials kept out of the main configuration document: routing an edit's credentials to
    the overlay file, relocating those found inline, and what a load then sees. */
module Secrets {
  import opened Strings
  import opened Wrappers
  import opened ConfigTree

  /** A credential is a key of one top-level section. */
  datatype Slot = Slot(section: string, key: string)

  function Lookup(d: Doc, at: Slot): Option<Tree> {
    if at.section in d && d[at.section].Dict? && at.key in d[at.section].kids
    then Some(d[at.section].kids[at.key])
    else None
  }

  function SectionOf(d: Doc, s: string): map<string, Tree> {
    if s in d && d[s].Dict? then d[s].kids else map[]
  }

  // ---- Blank values ------------------------------------------------------------------------

  /** Null, or a string of white space: nothing worth keeping. */
  predicate Empty(t: Tree) {
    t == Leaf(Null) || (t.Leaf? && t.value.Str? && forall i :: 0 <= i < |t.value.s| ==> IsSpace(t.value.s[i]))
  }

  predicate Holds(t: Option<Tree>) {
    t.Some? && !Empty(t.value)
  }

  predicate BlankText(t: Tree) {
    t == Leaf(Null) || (t.Leaf? && t.value.Str? && Strip(t.value.s) == "")
  }

  /** Exactly null, and the strings that trim to nothing. */
  lemma EmptyTrimsAway(t: Tree)
    ensures Empty(t) <==> BlankText(t)
  {
    if t.Leaf? && t.value.Str? { StripSettles(t.value.s); }
  }

  /** A string without the white space at either end; any other value as it is. */
  function Trimmed(t: Tree): Tree {
    if t.Leaf? && t.value.Str? then Leaf(Str(Strip(t.value.s))) else t
  }

  /** Trimming twice is trimming once, and it empties exactly the blank strings. */
  lemma TrimSettles(t: Tree)
    ensures Trimmed(Trimmed(t)) == Trimmed(t)
    ensures Empty(Trimmed(t)) <==> Empty(t)
  {
    if t.Leaf? && t.value.Str? { StripSettles(t.value.s); }
  }

  // ---- The overlay file ------------------------------------------------------------------------

  /** Merging values into the overlay fails on a section that is there but is not a map. */
  predicate Clashes(stored: Doc, updates: Doc) {
    exists s :: s in updates && updates[s].Dict? && updates[s].kids != map[] && s in stored && !stored[s].Dict?
  }

  /** One section after a save: its keys updated; no keys, no change to what is there. */
  function SavedSection(stored: Doc, updates: Doc, s: string): Tree
    requires s in stored || (s in updates && updates[s].Dict?)
  {
    if s in updates && updates[s].Dict? && (s in stored ==> stored[s].Dict?)
    then Dict(SectionOf(stored, s) + updates[s].kids)
    else stored[s]
  }

  /** Key by key within each section of the updates; everything else is kept. */
  function Saved(stored: Doc, updates: Doc): Doc {
    map s | s in stored.Keys + updates.Keys && (s in stored || updates[s].Dict?) :: SavedSection(stored, updates, s)
  }

  /** Where the environment makes a write fail: before the file is replaced, or after. */
  datatype Fault = NoFault | BeforeReplace | AfterReplace

  /** Writes the keys of one document over another, one at a time. */
  method Overlaid(section: Doc, kids: Doc) returns (dest: Doc)
    ensures dest == section + kids
  {
    var keys := kids.Keys;
    dest := section;
    while keys != {}
      invariant keys <= kids.Keys
      invariant dest == section + (kids - keys)
      decreases keys
    {
      var k :| k in keys;
      dest := dest[k := kids[k]];
      keys := keys - {k};
    }
    assert kids - {} == kids;
  }

  class SecretsFile {
    var stored: Doc

    constructor (doc: Doc)
      ensures stored == doc
    {
      stored := doc;
    }

    method SaveSecrets(updates: Doc, fault: Fault) returns (raised: bool)
      modifies this
      ensures raised <==> updates != map[] && (Clashes(old(stored), updates) || fault != NoFault)
      ensures stored == if updates == map[] || Clashes(old(stored), updates) || fault == BeforeReplace
                        then old(stored) else Saved(old(stored), updates)
    {
      if updates == map[] {
        return false;
      }
      var current, todo := stored, updates.Keys;
      while todo != {}
        invariant todo <= updates.Keys && stored == old(stored)
        invariant forall s :: s in updates.Keys - todo && updates[s].Dict? && updates[s].kids != map[] ==>
          s !in stored || stored[s].Dict?
        invariant forall s :: s in current <==> s in stored || (s in updates.Keys - todo && updates[s].Dict?)
        invariant forall s :: s in current ==>
          current[s] == if s in updates.Keys - todo then SavedSection(stored, updates, s) else stored[s]
        decreases todo
      {
        var s :| s in todo;
        if updates[s].Dict? {
          if s in current && !current[s].Dict? && updates[s].kids != map[] {
            return true;
          }
          var dest := Overlaid(SectionOf(current, s), updates[s].kids);
          if s !in current || current[s].Dict? {
            current := current[s := Dict(dest)];
          }
        }
        todo := todo - {s};
      }
      if fault == BeforeReplace {
        return true;
      }
      assert current == Saved(stored, updates);
      stored := current;
      raised := fault == AfterReplace;
    }
  }

  /** A save changes exactly the slots it names: merging never drops a stored credential. */
  lemma SavedReads(stored: Doc, updates: Doc, at: Slot)
    requires !Clashes(stored, updates)
    ensures Lookup(Saved(stored, updates), at) ==
            if Lookup(updates, at).Some? then Lookup(updates, at) else Lookup(stored, at)
  {
  }

  // ---- Stripping ---------------------------------------------------------------------------------

  /** The document without the given slots; a section they empty goes with them. */
  function Without(doc: Doc, drop: set<Slot>): Doc {
    map s | s in doc && !(doc[s].Dict? && doc[s].kids != map[] && Left(doc, drop, s) == map[]) ::
      if doc[s].Dict? then Dict(Left(doc, drop, s)) else doc[s]
  }

  function Left(doc: Doc, drop: set<Slot>, s: string): map<string, Tree>
    requires s in doc && doc[s].Dict?
  {
    map k | k in doc[s].kids && Slot(s, k) !in drop :: doc[s].kids[k]
  }

  lemma WithoutReads(doc: Doc, drop: set<Slot>, at: Slot)
    ensures Lookup(Without(doc, drop), at) == if at in drop then None else Lookup(doc, at)
  {
    var s := at.section;
    if s in doc && doc[s].Dict? {
      assert at == Slot(s, at.key);
      if at.key in doc[s].kids && at !in drop { assert at.key in Left(doc, drop, s); }
    }
  }

  /** Dropping one more slot that is there: one deletion, and the section if that emptied it. */
  method Delete(doc: Doc, ghost whole: Doc, ghost drop: set<Slot>, at: Slot) returns (r: Doc)
    requires doc == Without(whole, drop)
    ensures r == Without(whole, if Lookup(whole, at).Some? then drop + {at} else drop)
  {
    r := doc;
    WithoutReads(whole, drop, at);
    if Lookup(doc, at).Some? {
      var left := doc[at.section].kids - {at.key};
      assert left == Left(whole, drop + {at}, at.section);
      forall s | s in whole && whole[s].Dict? && s != at.section
        ensures Left(whole, drop + {at}, s) == Left(whole, drop, s) {}
      r := if left == map[] then doc - {at.section} else doc[at.section := Dict(left)];
      assert r == Without(whole, drop + {at});
    } else if Lookup(whole, at).Some? {
      assert drop + {at} == drop;
    }
  }

  // ---- Gathering values by slot ------------------------------------------------------------------

  function Put(d: Doc, at: Slot, t: Tree): Doc {
    d[at.section := Dict(SectionOf(d, at.section)[at.key := t])]
  }

  /** The wanted values of the slots, nested by section. */
  function Collected(slots: seq<Slot>, want: Slot -> Option<Tree>): Doc {
    if slots == [] then map[] else
    var at, rest := slots[|slots| - 1], Collected(slots[..|slots| - 1], want);
    if want(at).Some? then Put(rest, at, want(at).value) else rest
  }

  lemma {:induction false} CollectedReads(slots: seq<Slot>, want: Slot -> Option<Tree>, at: Slot)
    ensures Lookup(Collected(slots, want), at) == if at in slots then want(at) else None
    ensures forall s :: s in Collected(slots, want) ==> Collected(slots, want)[s].Dict?
  {
    if slots != [] {
      var n := |slots| - 1;
      CollectedReads(slots[..n], want, at);
      assert slots == slots[..n] + [slots[n]];
    }
  }

  lemma CollectedEmpty(slots: seq<Slot>, want: Slot -> Option<Tree>)
    ensures Collected(slots, want) == map[] <==> forall at :: at in slots ==> want(at).None?
  {
  }

  lemma {:induction false} NothingCollected(slots: seq<Slot>, want: Slot -> Option<Tree>)
    requires forall at :: at in slots ==> want(at).None?
    ensures Collected(slots, want) == map[]
  {
    if slots != [] { NothingCollected(slots[..|slots| - 1], want); }
  }

  // ---- Relocating inline credentials ---------------------------------------------------------------

  /** An inline credential whose value stripping alone would lose, ready for the overlay. */
  function Moves(doc: Doc, stored: Doc): Slot -> Option<Tree> {
    at => if Holds(Lookup(doc, at)) && !Holds(Lookup(stored, at)) then Some(Trimmed(Lookup(doc, at).value)) else None
  }

  datatype Files = Files(doc: Doc, stored: Doc)

  predicate WriteRaises(stored: Doc, pending: Doc, fault: Fault) {
    pending != map[] && (Clashes(stored, pending) || fault != NoFault)
  }

  predicate WriteLands(stored: Doc, pending: Doc, fault: Fault) {
    pending != map[] && !Clashes(stored, pending) && fault != BeforeReplace
  }

  /** The two files after a save has stripped the document: every credential slot goes, except
      the ones queued for a write that raised. */
  function Stripped(f: Files, slots: seq<Slot>, fault: Fault): Files {
    var pending := Collected(slots, Moves(f.doc, f.stored));
    Files(Without(f.doc, Drops(f, slots, slots, fault)),
          if WriteLands(f.stored, pending, fault) then Saved(f.stored, pending) else f.stored)
  }

  /** Of some of the slots, those the strip deletes. */
  function Drops(f: Files, slots: seq<Slot>, some: seq<Slot>, fault: Fault): set<Slot> {
    var pending := Collected(slots, Moves(f.doc, f.stored));
    set at | at in some && Lookup(f.doc, at).Some? &&
             !(WriteRaises(f.stored, pending, fault) && Lookup(pending, at).Some?)
  }

  /** The first pass: the slots that are inline, and the values stripping would lose. */
  method FindInline(doc: Doc, slots: seq<Slot>, stored: Doc) returns (present: seq<Slot>, pending: Doc)
    ensures pending == Collected(slots, Moves(doc, stored))
    ensures forall at :: at in present <==> at in slots && Lookup(doc, at).Some?
  {
    present, pending := [], map[];
    for i := 0 to |slots|
      invariant pending == Collected(slots[..i], Moves(doc, stored))
      invariant forall at :: at in present <==> at in slots[..i] && Lookup(doc, at).Some?
    {
      assert slots[..i + 1][..i] == slots[..i];
      var at := slots[i];
      var value := Lookup(doc, at);
      if value.Some? {
        present := present + [at];
        if !Empty(value.value) && !Holds(Lookup(stored, at)) {
          pending := Put(pending, at, Trimmed(value.value));
        }
      }
    }
    assert slots[..|slots|] == slots;
  }

  /** The second pass: deletes the inline slots, but not one whose relocation failed. */
  method DeleteInline(doc: Doc, present: seq<Slot>, pending: Doc, relocated: bool) returns (r: Doc)
    ensures r == Without(doc, set at | at in present && (relocated || Lookup(pending, at).None?))
  {
    r := doc;
    ghost var drop: set<Slot> := {};
    WithoutNothing(doc);
    for i := 0 to |present|
      invariant r == Without(doc, drop)
      invariant forall at :: at in drop <==>
                  at in present[..i] && (relocated || Lookup(pending, at).None?) && Lookup(doc, at).Some?
    {
      if relocated || Lookup(pending, present[i]).None? {
        r := Delete(r, doc, drop, present[i]);
        drop := if Lookup(doc, present[i]).Some? then drop + {present[i]} else drop;
      }
    }
    WithoutAbsent(doc, drop, set at | at in present && (relocated || Lookup(pending, at).None?));
  }

  /** Dropping slots that are not there changes nothing. */
  lemma WithoutAbsent(doc: Doc, drop: set<Slot>, more: set<Slot>)
    requires drop <= more && forall at :: at in more - drop ==> Lookup(doc, at).None?
    ensures Without(doc, drop) == Without(doc, more)
  {
    forall s | s in doc && doc[s].Dict? ensures Left(doc, drop, s) == Left(doc, more, s) {
      forall k | k in doc[s].kids ensures Slot(s, k) in drop <==> Slot(s, k) in more {
        assert Lookup(doc, Slot(s, k)).Some?;
      }
    }
  }

  method StripSecretsFromDoc(doc: Doc, slots: seq<Slot>, overlay: SecretsFile, fault: Fault) returns (r: Doc)
    modifies overlay
    ensures Files(r, overlay.stored) == Stripped(Files(doc, old(overlay.stored)), slots, fault)
  {
    var present, pending := FindInline(doc, slots, overlay.stored);
    var raised := false;
    if pending != map[] {
      raised := overlay.SaveSecrets(pending, fault);
    }
    r := DeleteInline(doc, present, pending, !raised);
    ghost var f := Files(doc, old(overlay.stored));
    assert (set at | at in present && (!raised || Lookup(pending, at).None?)) == Drops(f, slots, slots, fault);
  }

  lemma WithoutNothing(doc: Doc)
    ensures Without(doc, {}) == doc
  {
    forall s | s in doc && doc[s].Dict? ensures Left(doc, {}, s) == doc[s].kids {}
  }

  /** The credential a slot stands for: the overlay's if it holds one, else the inline one. */
  function Effective(f: Files, at: Slot): Option<Tree> {
    if Holds(Lookup(f.stored, at)) then Some(Trimmed(Lookup(f.stored, at).value))
    else if Holds(Lookup(f.doc, at)) then Some(Trimmed(Lookup(f.doc, at).value))
    else None
  }

  /** Both files of a strip, read slot by slot. */
  lemma StrippedReads(f: Files, slots: seq<Slot>, fault: Fault, at: Slot)
    ensures var g, pending := Stripped(f, slots, fault), Collected(slots, Moves(f.doc, f.stored));
            var move := if at in slots then Moves(f.doc, f.stored)(at) else None;
            && Lookup(pending, at) == move
            && (move.Some? ==> pending != map[])
            && Lookup(g.doc, at) == (if at in slots && !(WriteRaises(f.stored, pending, fault) && move.Some?)
                                     then None else Lookup(f.doc, at))
            && Lookup(g.stored, at) == (if WriteLands(f.stored, pending, fault) && move.Some?
                                        then move else Lookup(f.stored, at))
  {
    var pending := Collected(slots, Moves(f.doc, f.stored));
    CollectedReads(slots, Moves(f.doc, f.stored), at);
    WithoutReads(f.doc, Drops(f, slots, slots, fault), at);
    if WriteLands(f.stored, pending, fault) { SavedReads(f.stored, pending, at); }
  }

  /** Stripping loses no credential, whether the overlay write succeeds, fails, or raises after
      it has already landed. */
  lemma StrippingLosesNothing(f: Files, slots: seq<Slot>, fault: Fault, at: Slot)
    ensures Effective(Stripped(f, slots, fault), at) == Effective(f, at)
  {
    StrippedReads(f, slots, fault, at);
    if Holds(Lookup(f.doc, at)) { TrimSettles(Lookup(f.doc, at).value); }
  }

  /** Where no write raises, a credential that is inline and not blank ends up in the overlay, trimmed
      if it is a string, unless the overlay held one that is not blank; that one stays as it is. */
  lemma StrippingRelocates(f: Files, slots: seq<Slot>, at: Slot)
    requires at in slots && !Clashes(f.stored, Collected(slots, Moves(f.doc, f.stored)))
    ensures var inline, held, now := Lookup(f.doc, at), Lookup(f.stored, at),
                                     Lookup(Stripped(f, slots, NoFault).stored, at);
            if inline.Some? && !BlankText(inline.value) && (held.None? || BlankText(held.value))
            then now == Some(if inline.value.Leaf? && inline.value.value.Str?
                             then Leaf(Str(Strip(inline.value.value.s))) else inline.value)
            else now == held
  {
    StrippedReads(f, slots, NoFault, at);
    if Lookup(f.doc, at).Some? { EmptyTrimsAway(Lookup(f.doc, at).value); }
    if Lookup(f.stored, at).Some? { EmptyTrimsAway(Lookup(f.stored, at).value); }
  }

  /** What stays inline: nothing when no write raises; otherwise exactly the queued slots. Slots
      that are no credentials keep their values. */
  lemma StrippingLeavesInline(f: Files, slots: seq<Slot>, fault: Fault, at: Slot)
    ensures var pending := Collected(slots, Moves(f.doc, f.stored));
            Lookup(Stripped(f, slots, fault).doc, at) ==
            if at in slots && (!WriteRaises(f.stored, pending, fault) || Moves(f.doc, f.stored)(at).None?)
            then None else Lookup(f.doc, at)
  {
    StrippedReads(f, slots, fault, at);
  }

  /** Once the write has gone through, stripping again does nothing. */
  lemma StrippingTwice(f: Files, slots: seq<Slot>, fault: Fault, again: Fault)
    requires !WriteRaises(f.stored, Collected(slots, Moves(f.doc, f.stored)), fault)
    ensures var g := Stripped(f, slots, fault); Stripped(g, slots, again) == g
  {
    var g := Stripped(f, slots, fault);
    forall at | at in slots ensures Lookup(g.doc, at).None? { StrippedReads(f, slots, fault, at); }
    CollectedEmpty(slots, Moves(g.doc, g.stored));
    assert Drops(g, slots, slots, again) == {};
    WithoutNothing(g.doc);
  }

  // ---- What a load sees -------------------------------------------------------------------------------

  predicate Truthy(t: Tree) {
    match t
    case Dict(kids) => kids != map[]
    case Leaf(Null) => false
    case Leaf(Bool(b)) => b
    case Leaf(Num(n)) => n != 0.0
    case Leaf(Str(s)) => s != ""
    case Leaf(Items(items)) => items != []
  }

  /** The credential a configuration load resolves, if any. A section of the overlay that is not a
      map fails the load. */
  function Loaded(f: Files, at: Slot, default: Tree): Result<Option<Tree>, ()> {
    if at.section in f.stored && !f.stored[at.section].Dict? then Err(())
    else
      var held, inline := Lookup(f.stored, at), Lookup(f.doc, at);
      var t := if held.Some? && Truthy(held.value) then held.value
               else if inline.Some? then inline.value else default;
      Ok(if Usable(t) then Some(Trimmed(t)) else None)
  }

  predicate Usable(t: Tree) {
    !Empty(t) && Truthy(t)
  }

  /** A load resolves the same credential before and after a strip, except where its test for an
      unset overlay value and the strip's disagree on a slot that is set inline: a value that is
      falsy without being blank shadows nothing at load but stops the relocation; one of white
      space shadows at load but is replaced by a relocation that lands. */
  lemma LoadSeesTheSameSecret(f: Files, slots: seq<Slot>, fault: Fault, at: Slot, default: Tree)
    requires at in slots && Empty(default)
    ensures var held, pending := Lookup(f.stored, at), Collected(slots, Moves(f.doc, f.stored));
            Loaded(Stripped(f, slots, fault), at, default) == Loaded(f, at, default) <==>
            !(Lookup(f.doc, at).Some? && Usable(Lookup(f.doc, at).value) && held.Some? &&
              if Empty(held.value) then Truthy(held.value) && WriteLands(f.stored, pending, fault)
              else !Truthy(held.value))
  {
    var g, pending := Stripped(f, slots, fault), Collected(slots, Moves(f.doc, f.stored));
    StrippedReads(f, slots, fault, at);
    if Holds(Lookup(f.doc, at)) {
      TrimSettles(Lookup(f.doc, at).value);
      assert Usable(Lookup(f.doc, at).value) <==> Usable(Trimmed(Lookup(f.doc, at).value));
    }
    assert at.section in g.stored && !g.stored[at.section].Dict? <==>
           at.section in f.stored && !f.stored[at.section].Dict?;
  }

  const API_KEY := Slot("model", "api_key")

  /** A document with the key inline, beside an overlay that holds some other value for it. */
  function Shadowed(held: Scalar): Files {
    Files(map["model" := Dict(map["api_key" := Leaf(Str("k"))])], map["model" := Dict(map["api_key" := Leaf(held)])])
  }

  lemma ShadowedReads(held: Scalar)
    ensures var f := Shadowed(held);
            && Lookup(f.doc, API_KEY) == Some(Leaf(Str("k"))) && Lookup(f.stored, API_KEY) == Some(Leaf(held))
            && Trimmed(Leaf(Str("k"))) == Leaf(Str("k")) && Usable(Leaf(Str("k")))
            && !Clashes(f.stored, Collected([API_KEY], Moves(f.doc, f.stored)))
  {
    assert forall s :: s in Shadowed(held).stored ==> Shadowed(held).stored[s].Dict?;
  }

  /** A value of white space shadows the inline key until the strip relocates the key over it. */
  lemma StripUnmasksTheKey()
    ensures Loaded(Shadowed(Str("  ")), API_KEY, Leaf(Null)) == Ok(None)
    ensures Loaded(Stripped(Shadowed(Str("  ")), [API_KEY], NoFault), API_KEY, Leaf(Null)) == Ok(Some(Leaf(Str("k"))))
  {
    ShadowedReads(Str("  "));
    assert API_KEY in [API_KEY];
    StrippedReads(Shadowed(Str("  ")), [API_KEY], NoFault, API_KEY);
  }

  /** A false value shadows nothing at load, but the strip takes it for a stored credential and
      drops the inline key. */
  lemma StripDropsTheKey()
    ensures Loaded(Shadowed(Bool(false)), API_KEY, Leaf(Null)) == Ok(Some(Leaf(Str("k"))))
    ensures Loaded(Stripped(Shadowed(Bool(false)), [API_KEY], NoFault), API_KEY, Leaf(Null)) == Ok(None)
  {
    ShadowedReads(Bool(false));
    assert API_KEY in [API_KEY];
    StrippedReads(Shadowed(Bool(false)), [API_KEY], NoFault, API_KEY);
  }

  // ---- Routing an edit ----------------------------------------------------------------------------

  /** The credential strings of an edit that are not blank. */
  function Routes(config: Doc): Slot -> Option<Tree> {
    at => if Holds(Lookup(config, at)) && Lookup(config, at).value.Leaf? && Lookup(config, at).value.value.Str?
          then Some(Trimmed(Lookup(config, at).value)) else None
  }

  function Carried(doc: Doc, slots: seq<Slot>): set<Slot> {
    set at | at in slots && Lookup(doc, at).Some?
  }

  method SplitSecretUpdates(config: Doc, slots: seq<Slot>) returns (main: Doc, secrets: Doc)
    ensures main == Without(config, Carried(config, slots))
    ensures secrets == Collected(slots, Routes(config))
  {
    main, secrets := config, map[];
    WithoutNothing(config);
    assert Carried(config, slots[..0]) == {};
    for i := 0 to |slots|
      invariant main == Without(config, Carried(config, slots[..i]))
      invariant secrets == Collected(slots[..i], Routes(config))
    {
      main, secrets := SplitOne(config, slots[..i], slots[i], main, secrets);
      assert slots[..i + 1] == slots[..i] + [slots[i]];
    }
    assert slots[..|slots|] == slots;
  }

  /** One credential slot of an edit: a slot met before is no longer there to route. */
  method SplitOne(ghost config: Doc, ghost done: seq<Slot>, at: Slot, main: Doc, secrets: Doc)
    returns (rest: Doc, routed: Doc)
    requires main == Without(config, Carried(config, done))
    requires secrets == Collected(done, Routes(config))
    ensures rest == Without(config, Carried(config, done + [at]))
    ensures routed == Collected(done + [at], Routes(config))
  {
    assert (done + [at])[..|done|] == done;
    WithoutReads(config, Carried(config, done), at);
    CollectedReads(done, Routes(config), at);
    rest, routed := main, secrets;
    var value := Lookup(main, at);
    if value.Some? {
      assert Carried(config, done + [at]) == Carried(config, done) + {at};
      if value.value.Leaf? && value.value.value.Str? && !Empty(value.value) {
        routed := Put(secrets, at, Trimmed(value.value));
      }
      rest := Delete(main, config, Carried(config, done), at);
    } else {
      assert Carried(config, done + [at]) == Carried(config, done);
      if Routes(config)(at).Some? {
        PutAgain(secrets, at, Routes(config)(at).value);
      }
    }
  }

  lemma PutAgain(d: Doc, at: Slot, t: Tree)
    requires Lookup(d, at) == Some(t)
    ensures Put(d, at, t) == d
  {
    assert SectionOf(d, at.section)[at.key := t] == d[at.section].kids;
  }

  /** After an edit is split and its credential half saved, the document half holds no credential
      and every other slot of the edit; the overlay holds each non-blank credential of the edit,
      trimmed, and keeps what it had for every other slot. */
  lemma EditRoutesCredentials(config: Doc, stored: Doc, slots: seq<Slot>, at: Slot)
    requires !Clashes(stored, Collected(slots, Routes(config)))
    ensures var main := Without(config, Carried(config, slots));
            Lookup(main, at) == if at in slots then None else Lookup(config, at)
    ensures Lookup(Saved(stored, Collected(slots, Routes(config))), at) ==
            match Lookup(config, at)
            case Some(Leaf(Str(s))) =>
              if at in slots && Strip(s) != "" then Some(Leaf(Str(Strip(s)))) else Lookup(stored, at)
            case _ => Lookup(stored, at)
  {
    if Lookup(config, at).Some? { EmptyTrimsAway(Lookup(config, at).value); }
    WithoutReads(config, Carried(config, slots), at);
    CollectedReads(slots, Routes(config), at);
    SavedReads(stored, Collected(slots, Routes(config)), at);
  }
}
