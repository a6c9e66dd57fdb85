/** Narrowing a document's components to those its kept paths need (dump_openapi.py). */
module Prune {
  import opened Json
  import opened Pointer

  predicate IsComponentRef(s: string) { "#/components/" <= s }

  /** Every component reference among the strings at any depth; member names do not count. */
  function Refs(v: Json): set<string> {
    match v
    case Obj(m) => set k, r | k in m && r in Refs(m[k]) :: r
    case Arr(items) => set i, r | 0 <= i < |items| && r in Refs(items[i]) :: r
    case Str(s) => if IsComponentRef(s) then {s} else {}
    case _ => {}
  }

  /** They are exactly the component references that stand at some path. */
  lemma RefsStandAtPaths(v: Json, r: string)
    ensures r in Refs(v) <==> "#/components/" <= r && exists path :: At(v, path) == Some(Str(r))
  {
    if r in Refs(v) {
      var path := PlaceOfRef(v, r);
    }
    if IsComponentRef(r) && exists path :: At(v, path) == Some(Str(r)) {
      var path :| At(v, path) == Some(Str(r));
      RefAtPath(v, path, r);
    }
  }

  lemma {:induction false} PlaceOfRef(v: Json, r: string) returns (path: Path)
    requires r in Refs(v)
    ensures IsComponentRef(r) && At(v, path) == Some(Str(r))
    decreases v
  {
    match v {
      case Obj(m) =>
        var k :| k in m && r in Refs(m[k]);
        var rest := PlaceOfRef(m[k], r);
        path := [Key(k)] + rest;
        assert path[1..] == rest;
      case Arr(items) =>
        var i :| 0 <= i < |items| && r in Refs(items[i]);
        var rest := PlaceOfRef(items[i], r);
        path := [Index(i)] + rest;
        assert path[1..] == rest;
      case Str(s) => path := [];
      case _ =>
    }
  }

  lemma {:induction false} RefAtPath(v: Json, path: Path, r: string)
    requires IsComponentRef(r) && At(v, path) == Some(Str(r))
    ensures r in Refs(v)
    decreases path
  {
    if path != [] {
      match path[0] {
        case Key(name) => RefAtPath(v.fields[name], path[1..], r);
        case Index(i) => RefAtPath(v.items[i], path[1..], r);
      }
    }
  }

  /** The references in some members of an object. */
  ghost predicate InMembers(m: Fields, names: set<string>, r: string) {
    exists k :: k in names && k in m && r in Refs(m[k])
  }

  ghost predicate InFirst(items: seq<Json>, n: nat, r: string) {
    exists i :: 0 <= i < n && i < |items| && r in Refs(items[i])
  }

  /** The collector with its accumulator; members are visited in any order. */
  method CollectRefs(node: Json, acc: set<string>) returns (all: set<string>)
    ensures all == acc + Refs(node)
    decreases node
  {
    all := acc;
    match node {
      case Obj(m) =>
        var names := m.Keys;
        while names != {}
          invariant names <= m.Keys
          invariant forall r :: r in all <==> r in acc || InMembers(m, m.Keys - names, r)
        {
          var name :| name in names;
          all := CollectRefs(m[name], all);
          names := names - {name};
        }
        assert forall r :: InMembers(m, m.Keys - {}, r) <==> r in Refs(node);
      case Arr(items) =>
        for i := 0 to |items|
          invariant forall r :: r in all <==> r in acc || InFirst(items, i, r)
        {
          all := CollectRefs(items[i], all);
        }
        assert forall r :: InFirst(items, |items|, r) <==> r in Refs(node);
      case Str(s) => if IsComponentRef(s) { all := all + {s}; }
      case _ =>
    }
  }

  // ------------------------------------------------------- references as slots

  datatype SlotName = SlotName(section: string, name: string)

  /** The section is the third part; the name keeps any further slashes. */
  function RefParts(reference: string): Option<SlotName> {
    var parts := Split(reference, '/');
    if |parts| < 4 || parts[0] != "#" || parts[1] != "components" then None
    else Some(SlotName(parts[2], Join(parts[3..], '/')))
  }

  function RefOf(section: string, name: string): string { "#/components/" + section + "/" + name }

  /** Reading and printing a reference are inverse, so different references name different slots. */
  lemma RefPartsReadsRefOf(reference: string, section: string, name: string)
    ensures RefParts(reference) == Some(SlotName(section, name)) <==> reference == RefOf(section, name) && '/' !in section
  {
    if RefParts(reference) == Some(SlotName(section, name)) {
      var parts := Split(reference, '/');
      JoinUndoesSplit(reference, '/');
      assert parts[2] in parts;
      assert parts == ["#", "components", section] + parts[3..];
      JoinOfFour(section, parts[3..]);
    }
    if reference == RefOf(section, name) && '/' !in section {
      var tail := Split(name, '/');
      JoinUndoesSplit(name, '/');
      JoinOfFour(section, tail);
      SplitUndoesJoin(["#", "components", section] + tail, '/');
      assert (["#", "components", section] + tail)[3..] == tail;
    }
  }

  lemma JoinOfFour(section: string, tail: seq<string>)
    requires tail != []
    ensures Join(["#", "components", section] + tail, '/') == RefOf(section, Join(tail, '/'))
  {
    var all := ["#", "components", section] + tail;
    assert all[1..] == ["components", section] + tail;
    assert all[1..][1..] == [section] + tail;
    assert all[1..][1..][1..] == tail;
    var name := Join(tail, '/');
    assert Join(all[1..][1..], '/') == section + "/" + name;
    assert Join(all[1..], '/') == "components" + "/" + (section + "/" + name);
    assert Join(all, '/') == "#" + "/" + ("components" + "/" + (section + "/" + name));
    assert "#" + "/" + ("components" + "/" + (section + "/" + name)) == "#/components/" + (section + "/" + name);
  }

  /** What a reference leads to; a component may be null. */
  function Slot(components: Fields, reference: string): Option<Json> {
    match RefParts(reference)
    case None => None
    case Some(slot) =>
      if slot.section in components && components[slot.section].Obj? && slot.name in components[slot.section].fields
      then Some(components[slot.section].fields[slot.name])
      else None
  }

  /** A reference leads to the place that its section and name say. */
  lemma SlotsArePlaces(components: Fields, section: string, name: string)
    requires '/' !in section
    ensures Slot(components, RefOf(section, name)) == At(Obj(components), [Key(section), Key(name)])
  {
    RefPartsReadsRefOf(RefOf(section, name), section, name);
    hide RefParts, RefOf;
    var path: Path := [Key(section), Key(name)];
    assert path[1..] == [Key(name)] && path[1..][1..] == [];
    if section in components {
      assert At(Obj(components), path) == At(components[section], path[1..]);
      if components[section].Obj? && name in components[section].fields { assert At(components[section].fields[name], path[1..][1..]) == Some(components[section].fields[name]); }
    }
  }

  /** The target the worklist follows: a missing component and a null one both count as none. */
  function ResolveRef(components: Fields, reference: string): (r: Option<Json>)
    ensures r == if Slot(components, reference) == Some(Null) then None else Slot(components, reference)
  {
    match RefParts(reference)
    case None => None
    case Some(slot) =>
      var sectionMap := Get(components, slot.section);
      if sectionMap.Obj? && Get(sectionMap.fields, slot.name) != Null then Some(Get(sectionMap.fields, slot.name)) else None
  }

  // -------------------------------------------------------------- reachability

  function Out(components: Fields, reference: string): set<string> {
    match Slot(components, reference)
    case None => {}
    case Some(target) => Refs(target)
  }

  /** A chain of references: the first is a root, each next one stands in the target of the one before. */
  ghost predicate Chain(components: Fields, roots: set<string>, p: seq<string>) {
    p != [] && p[0] in roots && forall i :: 0 < i < |p| ==> p[i] in Out(components, p[i - 1])
  }

  ghost predicate Reachable(components: Fields, roots: set<string>, reference: string) {
    exists p :: Chain(components, roots, p) && p[|p| - 1] == reference
  }

  lemma OneStepFurther(components: Fields, roots: set<string>, a: string, b: string)
    requires Reachable(components, roots, a) && b in Out(components, a)
    ensures Reachable(components, roots, b)
  {
    var p :| Chain(components, roots, p) && p[|p| - 1] == a;
    var q := p + [b];
    assert Chain(components, roots, q) && q[|q| - 1] == b;
  }

  lemma RootsAreReachable(components: Fields, roots: set<string>, a: string)
    requires a in roots
    ensures Reachable(components, roots, a)
  {
    assert Chain(components, roots, [a]) && [a][|[a]| - 1] == a;
  }

  ghost predicate Closed(components: Fields, roots: set<string>, s: set<string>) {
    roots <= s && forall r :: r in s ==> Out(components, r) <= s
  }

  lemma {:induction false} ClosedSetsHoldChains(components: Fields, roots: set<string>, s: set<string>, p: seq<string>)
    requires Closed(components, roots, s) && Chain(components, roots, p)
    ensures p[|p| - 1] in s
    decreases |p|
  {
    if |p| > 1 {
      ClosedSetsHoldChains(components, roots, s, p[..|p| - 1]);
    }
  }

  /** All references that a run of the worklist can ever see. */
  function Universe(components: Fields, roots: set<string>): set<string> { roots + Refs(Obj(components)) }

  lemma OutStaysInside(components: Fields, roots: set<string>, reference: string)
    ensures Out(components, reference) <= Universe(components, roots)
  {
    if Slot(components, reference).Some? {
      var slot := RefParts(reference).value;
      var section := components[slot.section];
      assert Refs(section.fields[slot.name]) <= Refs(section);
      assert Refs(section) <= Refs(Obj(components));
    }
  }

  lemma RootsAreInside(components: Fields, roots: set<string>)
    ensures roots <= Universe(components, roots)
  {
  }

  /** The reachable references as a set. */
  ghost function Needed(components: Fields, roots: set<string>): set<string> {
    set r | r in Universe(components, roots) && Reachable(components, roots, r)
  }

  lemma NeededIsReachable(components: Fields, roots: set<string>, reference: string)
    ensures reference in Needed(components, roots) <==> Reachable(components, roots, reference)
  {
    if Reachable(components, roots, reference) {
      var p :| Chain(components, roots, p) && p[|p| - 1] == reference;
      if |p| > 1 { OutStaysInside(components, roots, p[|p| - 2]); }
    }
  }

  lemma NeededIsClosed(components: Fields, roots: set<string>)
    ensures Closed(components, roots, Needed(components, roots))
  {
    forall r | r in roots ensures r in Needed(components, roots) {
      RootsAreReachable(components, roots, r);
      NeededIsReachable(components, roots, r);
    }
    forall r, next | r in Needed(components, roots) && next in Out(components, r) ensures next in Needed(components, roots) {
      OneStepFurther(components, roots, r, next);
      NeededIsReachable(components, roots, next);
    }
  }

  // ------------------------------------------------------------------ the code

  /** The worklist: references are popped in any order. */
  method CollectNeeded(components: Fields, keptPaths: Fields) returns (needed: set<string>)
    ensures needed == Needed(components, Refs(Obj(keptPaths)))
  {
    hide Slot, ResolveRef, Refs, Reachable, Universe, Needed, Out;
    ghost var roots := Refs(Obj(keptPaths));
    ghost var universe := Universe(components, roots);
    needed := {};
    var frontier := CollectRefs(Obj(keptPaths), {});
    assert roots <= universe by { RootsAreInside(components, roots); }
    forall r | r in roots ensures Reachable(components, roots, r) { RootsAreReachable(components, roots, r); }
    while frontier != {}
      invariant roots <= needed + frontier <= universe
      invariant forall r :: r in needed ==> Out(components, r) <= needed + frontier
      invariant forall r :: r in needed + frontier ==> Reachable(components, roots, r)
      decreases universe - needed, frontier
    {
      var reference :| reference in frontier;
      frontier := frontier - {reference};
      if reference !in needed {
        needed := needed + {reference};
        var target := ResolveRef(components, reference);
        OutIsWhatIsFollowed(components, reference);
        if target.Some? {
          var sub := CollectRefs(target.value, {});
          OutStaysInside(components, roots, reference);
          forall r | r in sub ensures Reachable(components, roots, r) { OneStepFurther(components, roots, reference, r); }
          frontier := frontier + (sub - needed);
        }
      }
    }
    ClosedReachableSetIsNeeded(components, roots, needed);
  }

  lemma ClosedReachableSetIsNeeded(components: Fields, roots: set<string>, s: set<string>)
    requires Closed(components, roots, s) && forall r :: r in s ==> Reachable(components, roots, r)
    ensures s == Needed(components, roots)
  {
    hide Out, Needed;
    forall r ensures r in s <==> r in Needed(components, roots) {
      NeededIsReachable(components, roots, r);
      if Reachable(components, roots, r) {
        var p :| Chain(components, roots, p) && p[|p| - 1] == r;
        ClosedSetsHoldChains(components, roots, s, p);
      }
    }
  }

  lemma OutIsWhatIsFollowed(components: Fields, reference: string)
    ensures var t := ResolveRef(components, reference);
            Out(components, reference) == if t.Some? then Refs(t.value) else {}
  {
  }

  /** The components whose references are in a set. */
  function Kept(components: Fields, needed: set<string>): Fields {
    map section | section in components && components[section].Obj? && HasKept(components[section].fields, section, needed) ::
      Obj(KeptOf(components[section].fields, section, needed))
  }

  predicate HasKept(m: Fields, section: string, needed: set<string>) {
    exists name :: name in m && Keeps(section, name, needed)
  }

  predicate Keeps(section: string, name: string, needed: set<string>) {
    '/' !in section && RefOf(section, name) in needed
  }

  function KeptOf(m: Fields, section: string, needed: set<string>): Fields {
    map name | name in m && Keeps(section, name, needed) :: m[name]
  }

  method PruneComponents(components: Fields, keptPaths: Fields) returns (pruned: Fields)
    ensures pruned == Pruned(components, keptPaths)
  {
    var needed := CollectNeeded(components, keptPaths);
    ghost var all := needed;
    pruned := map[];
    assert Kept(components, {}) == map[];
    while needed != {}
      invariant needed <= all
      invariant pruned == Kept(components, all - needed)
    {
      var reference :| reference in needed;
      ghost var before := all - needed;
      needed := needed - {reference};
      assert all - needed == before + {reference};
      KeepOneMore(components, before, reference);
      var parts := RefParts(reference);
      if parts.Some? {
        var section, name := parts.value.section, parts.value.name;
        if section in components && components[section].Obj? && name in components[section].fields {
          var sectionMap := if section in pruned then pruned[section].fields else map[];
          pruned := pruned[section := Obj(sectionMap[name := components[section].fields[name]])];
        }
      }
    }
    assert all - {} == all;
  }

  lemma KeepOneMore(components: Fields, before: set<string>, reference: string)
    ensures var after, slot := Kept(components, before), RefParts(reference);
            && (forall s :: s in after ==> after[s].Obj?)
            && Kept(components, before + {reference}) ==
                 if slot.Some? && Slot(components, reference).Some? then
                   var m := if slot.value.section in after then after[slot.value.section].fields else map[];
                   after[slot.value.section := Obj(m[slot.value.name := Slot(components, reference).value])]
                 else after
  {
    forall s, n ensures Keeps(s, n, before + {reference}) <==> Keeps(s, n, before) || RefParts(reference) == Some(SlotName(s, n)) {
      RefPartsReadsRefOf(reference, s, n);
    }
    hide RefParts, Keeps;
    var after, more := Kept(components, before), Kept(components, before + {reference});
    if Slot(components, reference).Some? {
      var section, name := RefParts(reference).value.section, RefParts(reference).value.name;
      var m := if section in after then after[section].fields else map[];
      var source := components[section].fields;
      assert Keeps(section, name, before + {reference});
      assert KeptOf(source, section, before + {reference}) == m[name := source[name]];
      forall s | s in components && components[s].Obj? && s != section
        ensures KeptOf(components[s].fields, s, before + {reference}) == KeptOf(components[s].fields, s, before)
        ensures HasKept(components[s].fields, s, before + {reference}) <==> HasKept(components[s].fields, s, before)
      {
      }
      assert more == after[section := Obj(m[name := source[name]])];
    } else {
      forall s | s in components && components[s].Obj?
        ensures KeptOf(components[s].fields, s, before + {reference}) == KeptOf(components[s].fields, s, before)
        ensures HasKept(components[s].fields, s, before + {reference}) <==> HasKept(components[s].fields, s, before)
      {
      }
      assert more == after;
    }
  }

  ghost function Pruned(components: Fields, keptPaths: Fields): Fields {
    Kept(components, Needed(components, Refs(Obj(keptPaths))))
  }

  // ------------------------------------------------------------------- results

  /** The result holds exactly the reachable components, each with its value. */
  lemma HoldsExactlyTheReachable(components: Fields, keptPaths: Fields, reference: string)
    ensures Slot(Pruned(components, keptPaths), reference) ==
            if Reachable(components, Refs(Obj(keptPaths)), reference) then Slot(components, reference) else None
  {
    NeededIsReachable(components, Refs(Obj(keptPaths)), reference);
    SlotOfKept(components, Needed(components, Refs(Obj(keptPaths))), reference);
  }

  lemma SlotOfKept(components: Fields, needed: set<string>, reference: string)
    ensures Slot(Kept(components, needed), reference) == if reference in needed then Slot(components, reference) else None
  {
    var parts := RefParts(reference);
    if parts.Some? {
      RefPartsReadsRefOf(reference, parts.value.section, parts.value.name);
      assert Keeps(parts.value.section, parts.value.name, needed) <==> reference in needed;
    }
  }

  lemma RefsOfKept(components: Fields, needed: set<string>, reference: string)
    requires reference in Refs(Obj(Kept(components, needed)))
    ensures exists r :: r in needed && reference in Out(components, r)
  {
    var kept := Kept(components, needed);
    var section :| section in kept && reference in Refs(kept[section]);
    var name :| name in kept[section].fields && reference in Refs(kept[section].fields[name]);
    assert Keeps(section, name, needed);
    RefPartsReadsRefOf(RefOf(section, name), section, name);
    assert reference in Out(components, RefOf(section, name));
  }

  /** Every reference in the kept paths or in the result leads where it led before. */
  lemma ReferencesKeepTheirTargets(components: Fields, keptPaths: Fields, reference: string)
    requires reference in Refs(Obj(keptPaths)) + Refs(Obj(Pruned(components, keptPaths)))
    ensures Slot(Pruned(components, keptPaths), reference) == Slot(components, reference)
  {
    hide Slot, Refs, Kept;
    var roots := Refs(Obj(keptPaths));
    NeededIsClosed(components, roots);
    if reference !in roots { RefsOfKept(components, Needed(components, roots), reference); }
    NeededIsReachable(components, roots, reference);
    HoldsExactlyTheReachable(components, keptPaths, reference);
  }

  /** That is so for a reference at any path of the kept paths or of the result. */
  lemma ReferencesAtAnyPathKeepTheirTargets(components: Fields, keptPaths: Fields, path: Path, reference: string)
    requires IsComponentRef(reference)
    requires At(Obj(keptPaths), path) == Some(Str(reference)) || At(Obj(Pruned(components, keptPaths)), path) == Some(Str(reference))
    ensures Slot(Pruned(components, keptPaths), reference) == Slot(components, reference)
  {
    RefsStandAtPaths(Obj(keptPaths), reference);
    RefsStandAtPaths(Obj(Pruned(components, keptPaths)), reference);
    hide Slot, Refs, Pruned;
    ReferencesKeepTheirTargets(components, keptPaths, reference);
  }

  /** A part of the components with which the kept paths have all their targets. */
  ghost predicate SelfContained(components: Fields, keptPaths: Fields, part: Fields) {
    && (forall r :: Slot(part, r).Some? ==> Slot(part, r) == Slot(components, r))
    && (forall r :: r in Refs(Obj(keptPaths)) ==> Slot(part, r) == Slot(components, r))
    && (forall r, next :: Slot(part, r).Some? && next in Out(part, r) ==> Slot(part, next) == Slot(components, next))
  }

  lemma {:induction false} SelfContainedHoldsChains(components: Fields, keptPaths: Fields, part: Fields, p: seq<string>)
    requires SelfContained(components, keptPaths, part) && Chain(components, Refs(Obj(keptPaths)), p)
    ensures Slot(part, p[|p| - 1]) == Slot(components, p[|p| - 1])
    decreases |p|
  {
    hide Slot, Refs;
    if |p| > 1 {
      var shorter := p[..|p| - 1];
      SelfContainedHoldsChains(components, keptPaths, part, shorter);
      assert p[|p| - 1] in Out(components, p[|p| - 2]) && shorter[|shorter| - 1] == p[|p| - 2];
      assert Out(part, p[|p| - 2]) == Out(components, p[|p| - 2]);
    }
  }

  /** The result is the smallest self-contained part: it is one, and every other one includes it. */
  lemma SmallestSelfContainedPart(components: Fields, keptPaths: Fields)
    ensures SelfContained(components, keptPaths, Pruned(components, keptPaths))
    ensures forall part, r :: SelfContained(components, keptPaths, part) && Slot(Pruned(components, keptPaths), r).Some? ==>
              Slot(part, r) == Slot(Pruned(components, keptPaths), r)
  {
    hide Slot, Refs, Pruned;
    var roots, pruned := Refs(Obj(keptPaths)), Pruned(components, keptPaths);
    forall r ensures Slot(pruned, r) == if Reachable(components, roots, r) then Slot(components, r) else None {
      HoldsExactlyTheReachable(components, keptPaths, r);
    }
    forall r | r in roots ensures Slot(pruned, r) == Slot(components, r) { RootsAreReachable(components, roots, r); }
    forall r, next | Slot(pruned, r).Some? && next in Out(pruned, r) ensures Slot(pruned, next) == Slot(components, next) {
      assert Out(pruned, r) == Out(components, r);
      OneStepFurther(components, roots, r, next);
    }
    forall part, r | SelfContained(components, keptPaths, part) && Slot(pruned, r).Some? ensures Slot(part, r) == Slot(pruned, r) {
      var p :| Chain(components, roots, p) && p[|p| - 1] == r;
      SelfContainedHoldsChains(components, keptPaths, part, p);
    }
  }

  lemma {:induction false} ChainsSurvive(components: Fields, keptPaths: Fields, p: seq<string>)
    ensures Chain(components, Refs(Obj(keptPaths)), p) <==> Chain(Pruned(components, keptPaths), Refs(Obj(keptPaths)), p)
    decreases |p|
  {
    hide Slot, Refs, Pruned;
    var roots, pruned := Refs(Obj(keptPaths)), Pruned(components, keptPaths);
    if |p| > 1 {
      var shorter := p[..|p| - 1];
      ChainsSurvive(components, keptPaths, shorter);
      if Chain(components, roots, shorter) {
        assert shorter[|shorter| - 1] == p[|p| - 2];
        assert Reachable(components, roots, p[|p| - 2]);
        HoldsExactlyTheReachable(components, keptPaths, p[|p| - 2]);
        assert Out(pruned, p[|p| - 2]) == Out(components, p[|p| - 2]);
      }
      ChainSplits(components, roots, p);
      ChainSplits(pruned, roots, p);
    }
  }

  lemma ChainSplits(components: Fields, roots: set<string>, p: seq<string>)
    requires |p| > 1
    ensures Chain(components, roots, p) <==> Chain(components, roots, p[..|p| - 1]) && p[|p| - 1] in Out(components, p[|p| - 2])
  {
    hide Out;
    var shorter := p[..|p| - 1];
    forall i | 0 < i < |p| && Chain(components, roots, shorter) && p[|p| - 1] in Out(components, p[|p| - 2])
      ensures p[i] in Out(components, p[i - 1])
    {
      if i < |shorter| { assert shorter[i] in Out(components, shorter[i - 1]); }
    }
  }

  /** Pruning twice is pruning once. */
  lemma PruningIsIdempotent(components: Fields, keptPaths: Fields)
    ensures Pruned(Pruned(components, keptPaths), keptPaths) == Pruned(components, keptPaths)
  {
    var roots, pruned := Refs(Obj(keptPaths)), Pruned(components, keptPaths);
    var needed := Needed(components, roots);
    forall r ensures r in needed <==> r in Needed(pruned, roots) {
      hide Slot, Refs, Pruned, Chain;
      NeededIsReachable(components, roots, r);
      NeededIsReachable(pruned, roots, r);
      forall p ensures Chain(components, roots, p) <==> Chain(pruned, roots, p) { ChainsSurvive(components, keptPaths, p); }
    }
    assert needed == Needed(pruned, roots);
    KeepingTwice(components, needed);
  }

  lemma KeepingTwice(components: Fields, needed: set<string>)
    ensures Kept(Kept(components, needed), needed) == Kept(components, needed)
  {
    hide Keeps;
    var once := Kept(components, needed);
    forall section | section in once
      ensures HasKept(once[section].fields, section, needed) && KeptOf(once[section].fields, section, needed) == once[section].fields
    {
      var name :| name in components[section].fields && Keeps(section, name, needed);
      assert name in once[section].fields;
    }
  }

  // ---------------------------------------------- references as JSON Pointers

  /** A reference read as RFC 6901 has it: unescaped part by part, to any depth. */
  function ReadRef(components: Fields, reference: string): Option<Json>
    requires IsComponentRef(reference)
  {
    JsonPointer(Obj(map["components" := Obj(components)]), reference[1..])
  }

  lemma {:induction false} NoPairToReplace(s: string, a: char, b: char, with: char)
    requires a !in s
    ensures ReplacePair(s, a, b, with) == s
  {
    if |s| >= 2 { NoPairToReplace(s[1..], a, b, with); }
  }

  lemma PlainPartsStay(s: string)
    requires '~' !in s
    ensures Unescape(s) == s
  {
    NoPairToReplace(s, '~', '1', '/');
    NoPairToReplace(s, '~', '0', '~');
  }

  lemma SplitFront(head: string, tail: string)
    requires '/' !in head
    ensures Split(head + "/" + tail, '/') == [head] + Split(tail, '/')
  {
    var ts := Split(tail, '/');
    JoinUndoesSplit(tail, '/');
    SplitUndoesJoin([head] + ts, '/');
    assert ([head] + ts)[1..] == ts;
  }

  lemma ReadRefInParts(components: Fields, reference: string)
    requires IsComponentRef(reference)
    ensures var parts := Split(reference, '/');
            && |parts| >= 3 && parts[0] == "#" && parts[1] == "components"
            && ReadRef(components, reference) == Walk(Obj(components), parts[2..])
  {
    hide Split, Unescape, Walk;
    var tail := reference[13..];
    var ts := Split(tail, '/');
    assert reference == "#/components/" + tail;
    assert reference == "#" + "/" + ("components" + "/" + tail) && reference[1..][1..] == "components" + "/" + tail;
    SplitFront("components", tail);
    SplitFront("#", "components" + "/" + tail);
    assert Split(reference, '/')[2..] == ts;
    PlainPartsStay("components");
    WalkOneHop(components, "components", ts);
  }

  lemma WalkOneHop(components: Fields, name: string, parts: seq<string>)
    requires Unescape(name) == name
    ensures Walk(Obj(map[name := Obj(components)]), [name] + parts) == Walk(Obj(components), parts)
  {
    hide Unescape;
    assert ([name] + parts)[1..] == parts;
  }

  /** The component a pointer goes through is one that the result keeps. */
  ghost predicate GoesThroughKept(components: Fields, keptPaths: Fields, parts: seq<string>)
    requires |parts| >= 4
  {
    var section, name := Unescape(parts[2]), Unescape(parts[3]);
    Get(components, section).Obj? && '/' !in section && Reachable(components, Refs(Obj(keptPaths)), RefOf(section, name))
  }

  /**
   * Which references survive when they are read as JSON Pointers: one into a
   * component reads as before exactly when it led nowhere or the reference of
   * that whole component, unescaped, is reachable itself.
   */
  lemma PointersSurviveExactly(components: Fields, keptPaths: Fields, reference: string)
    requires IsComponentRef(reference) && |Split(reference, '/')| >= 4
    ensures ReadRef(Pruned(components, keptPaths), reference) ==
            if GoesThroughKept(components, keptPaths, Split(reference, '/')) then ReadRef(components, reference) else None
    ensures ReadRef(Pruned(components, keptPaths), reference) == ReadRef(components, reference)
            <==> ReadRef(components, reference).None? || GoesThroughKept(components, keptPaths, Split(reference, '/'))
  {
    hide Split, ReadRef, Refs, Unescape, Reachable;
    var parts := Split(reference, '/');
    var section, name, deeper := Unescape(parts[2]), Unescape(parts[3]), parts[4..];
    var pruned, needed := Pruned(components, keptPaths), Needed(components, Refs(Obj(keptPaths)));
    ReadRefInParts(components, reference);
    ReadRefInParts(pruned, reference);
    NeededIsReachable(components, Refs(Obj(keptPaths)), RefOf(section, name));
    assert parts[2..] == [parts[2], parts[3]] + deeper;
    WalkTwoHops(components, parts[2], parts[3], deeper);
    WalkTwoHops(pruned, parts[2], parts[3], deeper);
    hide Walk, Needed;
    if Get(components, section).Obj? && Keeps(section, name, needed) && name in components[section].fields {
      assert pruned[section].fields[name] == components[section].fields[name];
    }
  }

  lemma WalkTwoHops(components: Fields, first: string, second: string, deeper: seq<string>)
    ensures var section, name := Unescape(first), Unescape(second);
            Walk(Obj(components), [first, second] + deeper) ==
              if section !in components || Hop(components[section], name).None? then None
              else Walk(Hop(components[section], name).value, deeper)
  {
    var parts := [first, second] + deeper;
    assert parts[1..] == [second] + deeper && parts[1..][1..] == deeper;
  }

  /** A whole section reads as before exactly when it is missing or an object of which everything, and something, is kept. */
  lemma SectionsSurviveExactly(components: Fields, keptPaths: Fields, reference: string)
    requires IsComponentRef(reference) && |Split(reference, '/')| == 3
    ensures var section, roots := Unescape(Split(reference, '/')[2]), Refs(Obj(keptPaths));
            ReadRef(Pruned(components, keptPaths), reference) == ReadRef(components, reference)
            <==> section !in components
                 || (components[section].Obj? && components[section].fields != map[] && '/' !in section
                     && forall name :: name in components[section].fields ==> Reachable(components, roots, RefOf(section, name)))
  {
    hide Split, ReadRef, Refs, Unescape, Reachable;
    var parts := Split(reference, '/');
    var section, roots := Unescape(parts[2]), Refs(Obj(keptPaths));
    var pruned := Pruned(components, keptPaths);
    ReadRefInParts(components, reference);
    ReadRefInParts(pruned, reference);
    assert parts[2..][1..] == [];
    forall name ensures RefOf(section, name) in Needed(components, roots) <==> Reachable(components, roots, RefOf(section, name)) {
      NeededIsReachable(components, roots, RefOf(section, name));
    }
    hide Needed;
    if section in components && components[section].Obj? {
      var m, needed := components[section].fields, Needed(components, roots);
      if section in pruned && pruned[section] == components[section] {
        forall name | name in m ensures Keeps(section, name, needed) { assert name in KeptOf(m, section, needed); }
      }
      if m != map[] && forall name :: name in m ==> Keeps(section, name, needed) {
        assert KeptOf(m, section, needed) == m;
        var name :| name in m;
        assert HasKept(m, section, needed);
      }
    }
  }

  /** A reference in use that is plain, four parts and no tilde, always survives when its section is an object. */
  lemma PlainReferencesSurvive(components: Fields, keptPaths: Fields, reference: string)
    requires reference in Refs(Obj(keptPaths)) + Refs(Obj(Pruned(components, keptPaths)))
    requires IsComponentRef(reference) && |Split(reference, '/')| == 4 && '~' !in reference
    requires Get(components, Split(reference, '/')[2]).Obj?
    ensures ReadRef(Pruned(components, keptPaths), reference) == ReadRef(components, reference)
  {
    var parts, roots := Split(reference, '/'), Refs(Obj(keptPaths));
    PartsOfPlain(reference);
    hide Split, ReadRef, Refs, Reachable, Kept, Unescape;
    NeededIsClosed(components, roots);
    if reference !in roots { RefsOfKept(components, Needed(components, roots), reference); }
    NeededIsReachable(components, roots, reference);
    PointersSurviveExactly(components, keptPaths, reference);
  }

  lemma PartsOfPlain(reference: string)
    requires IsComponentRef(reference) && |Split(reference, '/')| == 4 && '~' !in reference
    ensures var parts := Split(reference, '/');
            && Unescape(parts[2]) == parts[2] && Unescape(parts[3]) == parts[3] && '/' !in parts[2]
            && reference == RefOf(parts[2], parts[3])
  {
    hide Split, Unescape;
    var parts := Split(reference, '/');
    ReadRefInParts(map[], reference);
    assert parts[3..] == [parts[3]];
    RefPartsReadsRefOf(reference, parts[2], parts[3]);
    RefOfHolds(parts[2], parts[3]);
    PlainPartsStay(parts[2]);
    PlainPartsStay(parts[3]);
  }

  lemma RefOfHolds(section: string, name: string)
    ensures forall c :: c in section || c in name ==> c in RefOf(section, name)
  {
  }

  /** A reference to a place inside a component keeps nothing: when it is the only one in the kept paths its target is gone. */
  lemma DeeperReferencesDangle(components: Fields, keptPaths: Fields, section: string, name: string, member: string)
    requires IsPlain(section) && IsPlain(name) && IsPlain(member)
    requires Get(components, section).Obj? && Get(components[section].fields, name).Obj?
    requires member in components[section].fields[name].fields && name + "/" + member !in components[section].fields
    requires Refs(Obj(keptPaths)) == {RefOf(section, name) + "/" + member}
    ensures var reference := RefOf(section, name) + "/" + member;
            && ReadRef(components, reference) == Some(components[section].fields[name].fields[member])
            && ReadRef(Pruned(components, keptPaths), reference) == None
  {
    hide Split, Pruned, ReadRef, Refs, Reachable, Unescape, RefParts;
    var reference := RefOf(section, name) + "/" + member;
    DeeperReferenceInParts(section, name, member);
    DeeperReferenceReads(components, section, name, member);
    NothingElseIsReached(components, keptPaths, section, name, member);
    PlainPartsStay(section); PlainPartsStay(name);
    PointersSurviveExactly(components, keptPaths, reference);
  }

  predicate IsPlain(part: string) { '~' !in part && '/' !in part }

  lemma DeeperReferenceReads(components: Fields, section: string, name: string, member: string)
    requires IsPlain(section) && IsPlain(name) && IsPlain(member)
    requires Get(components, section).Obj? && Get(components[section].fields, name).Obj?
    ensures var m := components[section].fields[name].fields;
            ReadRef(components, RefOf(section, name) + "/" + member) == if member in m then Some(m[member]) else None
  {
    hide Split, ReadRef, Unescape, RefParts;
    DeeperReferenceInParts(section, name, member);
    ReadRefInParts(components, RefOf(section, name) + "/" + member);
    PlainPartsStay(section); PlainPartsStay(name); PlainPartsStay(member);
    hide RefOf;
    var parts := ["#", "components", section, name, member];
    assert parts[2..] == [section, name] + [member];
    WalkTwoHops(components, section, name, [member]);
    assert [member][1..] == [];
  }

  lemma DeeperReferenceInParts(section: string, name: string, member: string)
    requires '/' !in section && '/' !in name && '/' !in member
    ensures Split(RefOf(section, name) + "/" + member, '/') == ["#", "components", section, name, member]
    ensures RefParts(RefOf(section, name) + "/" + member) == Some(SlotName(section, name + "/" + member))
  {
    var parts := ["#", "components", section, name, member];
    assert parts == ["#", "components", section] + [name, member];
    assert [name, member][1..] == [member];
    assert Join([name, member], '/') == name + "/" + member;
    JoinOfFour(section, [name, member]);
    assert RefOf(section, name + "/" + member) == RefOf(section, name) + "/" + member;
    SplitUndoesJoin(parts, '/');
    RefPartsReadsRefOf(RefOf(section, name) + "/" + member, section, name + "/" + member);
  }

  lemma NothingElseIsReached(components: Fields, keptPaths: Fields, section: string, name: string, member: string)
    requires '/' !in section && '/' !in name && '/' !in member
    requires section in components && components[section].Obj? && name + "/" + member !in components[section].fields
    requires Refs(Obj(keptPaths)) == {RefOf(section, name) + "/" + member}
    ensures !Reachable(components, Refs(Obj(keptPaths)), RefOf(section, name))
  {
    var roots, reference := Refs(Obj(keptPaths)), RefOf(section, name) + "/" + member;
    DeeperReferenceInParts(section, name, member);
    assert Slot(components, reference) == None;
    assert Closed(components, roots, roots);
    assert |reference| > |RefOf(section, name)|;
    if Reachable(components, roots, RefOf(section, name)) {
      var p :| Chain(components, roots, p) && p[|p| - 1] == RefOf(section, name);
      ClosedSetsHoldChains(components, roots, roots, p);
    }
  }
}
