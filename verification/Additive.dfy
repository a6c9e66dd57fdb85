/** Copying one operation and its references into a published document (publish_additive_openapi_operation.py). */
module Additive {
  import opened Json
  import opened Pointer
  import opened Prune

  const METHODS: set<string> := {"get", "put", "post", "delete", "patch", "options", "head", "trace"}

  datatype PublishError =
    | UnsupportedMethod | VersionDiffers | NoSuchOperation | OtherMethods | PathDiffers
    | UnsupportedReference | MissingComponent | ComponentDiffers
    | Malformed // an attribute or type error on a document of the wrong shape

  datatype Outcome = Ok(merged: Fields) | Err(error: PublishError)

  datatype Checked = Pass(source: Fields) | Fail(error: PublishError)

  datatype ComponentRead = Found(section: string, name: string, item: Json) | Fault(error: PublishError)

  predicate Falsy(v: Json) { v in [Null, Bool(false), Num(0), Str(""), Arr([]), Obj(map[])] }

  /** The object meant by `d.get(key) or {}`; None when its next use raises. */
  function OrEmpty(d: Fields, key: string): Option<Fields> {
    if key !in d || Falsy(d[key]) then Some(map[]) else ObjAt(d, key)
  }

  /** The object meant by `d.setdefault(key, {})`; None when its next use raises. */
  function SetDefault(d: Fields, key: string): Option<Fields> {
    if key in d then ObjAt(d, key) else Some(map[])
  }

  function Component(candidate: Fields, reference: string): ComponentRead {
    var parts := Split(reference, '/');
    if |parts| != 4 || parts[..2] != ["#", "components"] then Fault(UnsupportedReference) else
    match OrEmpty(candidate, "components")
    case None => Fault(Malformed)
    case Some(components) =>
      match SetDefault(components, parts[2])
      case None => Fault(Malformed)
      case Some(section) =>
        if Get(section, parts[3]) == Null then Fault(MissingComponent)
        else Found(parts[2], parts[3], section[parts[3]])
  }

  /** Everything that is checked before the worklist starts; the method is already in lower case. */
  function Preflight(published: Fields, candidate: Fields, verb: string, path: string): Checked {
    if verb !in METHODS then Fail(UnsupportedMethod)
    else if Get(published, "openapi") != Get(candidate, "openapi") then Fail(VersionDiffers)
    else match OrEmpty(candidate, "paths")
    case None => Fail(Malformed)
    case Some(candidatePaths) =>
      var source := Get(candidatePaths, path);
      if !source.Obj? || verb !in source.fields then Fail(NoSuchOperation)
      else match OrEmpty(published, "paths")
      case None => Fail(Malformed)
      case Some(publishedPaths) =>
        if Get(publishedPaths, path) != Null && OtherVerbs(source.fields, verb) != {} then Fail(OtherMethods)
        else match SetDefault(published, "paths")
        case None => Fail(Malformed)
        case Some(paths) =>
          if Get(paths, path) != Null && Get(paths, path) != source then Fail(PathDiffers)
          else Pass(source.fields)
  }

  function OtherVerbs(source: Fields, verb: string): set<string> { METHODS * source.Keys - {verb} }

  /** What is wrong with copying one reference into a document. */
  function ReferenceFault(document: Fields, candidate: Fields, reference: string): Option<PublishError> {
    match Component(candidate, reference)
    case Fault(error) => Some(error)
    case Found(section, name, item) => CopyFault(document, section, name, item)
  }

  /** What is wrong with putting an item into a document. */
  function CopyFault(document: Fields, section: string, name: string, item: Json): Option<PublishError> {
    match SetDefault(document, "components")
    case None => Some(Malformed)
    case Some(components) =>
      match SetDefault(components, section)
      case None => Some(Malformed)
      case Some(target) => if name in target && target[name] != item then Some(ComponentDiffers) else None
  }

  // ------------------------------------------------------------- specification

  function ComponentsOf(d: Fields): Fields { OrElse(ObjAt(d, "components"), map[]) }

  function SectionOf(components: Fields, section: string): Fields { OrElse(ObjAt(components, section), map[]) }

  /** Two levels of members put together, the added ones winning. */
  function Adopt(components: Fields, added: Fields): Fields {
    map section | section in components.Keys + added.Keys ::
      if section in added && added[section].Obj? then Obj(SectionOf(components, section) + added[section].fields)
      else if section in components then components[section] else added[section]
  }

  function WithPath(published: Fields, source: Fields, path: string): Fields {
    published["paths" := Obj(OrElse(ObjAt(published, "paths"), map[])[path := Obj(source)])]
  }

  function Extended(published: Fields, source: Fields, path: string, added: Fields): Fields {
    if added == map[] then WithPath(published, source, path)
    else WithPath(published, source, path)["components" := Obj(Adopt(ComponentsOf(published), added))]
  }

  /** The references that a run over `source` has to copy. */
  ghost function ToCopy(candidate: Fields, source: Fields): set<string> {
    Needed(ComponentsOf(candidate), Refs(Obj(source)))
  }

  /**
   * The outcomes of a run: with a fault among the references, which one is
   * reported depends on the order in which the set hands them out.
   */
  ghost predicate Yields(published: Fields, candidate: Fields, verb: string, path: string, r: Outcome) {
    match Preflight(published, candidate, verb, path)
    case Fail(error) => r == Err(error)
    case Pass(source) =>
      match r
      case Ok(merged) =>
        && (forall x :: x in ToCopy(candidate, source) ==> ReferenceFault(published, candidate, x).None?)
        && merged == Extended(published, source, path, Kept(ComponentsOf(candidate), ToCopy(candidate, source)))
      case Err(error) =>
        exists x :: x in ToCopy(candidate, source) && ReferenceFault(published, candidate, x) == Some(error)
  }

  // ---------------------------------------------------- exactly what is accepted

  /** The value under one key, two keys and three keys of a document, when there is one. */
  lemma AtThreeKeys(d: Fields, a: string, b: string, c: string)
    ensures At(Obj(d), [Key(a), Key(b)]) == if ObjAt(d, a).Some? && b in d[a].fields then Some(d[a].fields[b]) else None
    ensures At(Obj(d), [Key(a), Key(b), Key(c)]) ==
            if ObjAt(d, a).Some? && ObjAt(d[a].fields, b).Some? && c in d[a].fields[b].fields then Some(d[a].fields[b].fields[c]) else None
  {
    var two, three: Path := [Key(a), Key(b)], [Key(a), Key(b), Key(c)];
    assert two[1..] == [Key(b)] && two[1..][1..] == [];
    assert three[1..] == [Key(b), Key(c)] && three[1..][1..] == [Key(c)] && three[1..][1..][1..] == [];
    if a in d {
      assert At(Obj(d), two) == At(d[a], two[1..]) && At(Obj(d), three) == At(d[a], three[1..]);
      if d[a].Obj? && b in d[a].fields {
        var inner := d[a].fields[b];
        assert At(d[a], two[1..]) == At(inner, two[1..][1..]) == Some(inner);
        assert At(d[a], three[1..]) == At(inner, three[1..][1..]);
        if inner.Obj? && c in inner.fields { assert At(inner, three[1..][1..]) == At(inner.fields[c], three[1..][1..][1..]) == Some(inner.fields[c]); }
      }
    }
  }

  /** A place is free when nothing or null stands there. */
  predicate IsFree(d: Fields, path: Path) { At(Obj(d), path) in {None, Some(Null)} }

  /**
   * An operation may be published: its method is known and in the candidate,
   * both documents have one version, and a published path is the candidate's
   * own and has no other method.
   */
  predicate MayPublish(published: Fields, candidate: Fields, verb: string, path: string) {
    && verb in METHODS
    && Get(published, "openapi") == Get(candidate, "openapi")
    && At(Obj(candidate), [Key("paths"), Key(path), Key(verb)]).Some?
    && ("paths" in published ==> published["paths"].Obj?)
    && (IsFree(published, [Key("paths"), Key(path)])
        || (At(Obj(published), [Key("paths"), Key(path)]) == At(Obj(candidate), [Key("paths"), Key(path)])
            && forall other :: other in METHODS && other != verb ==> At(Obj(candidate), [Key("paths"), Key(path), Key(other)]).None?))
  }

  lemma PassesExactly(published: Fields, candidate: Fields, verb: string, path: string)
    ensures Preflight(published, candidate, verb, path).Pass? <==> MayPublish(published, candidate, verb, path)
    ensures MayPublish(published, candidate, verb, path) ==>
              At(Obj(candidate), [Key("paths"), Key(path)]) == Some(Obj(Preflight(published, candidate, verb, path).source))
  {
    hide At;
    AtThreeKeys(published, "paths", path, verb);
    forall other ensures At(Obj(candidate), [Key("paths"), Key(path), Key(other)]).Some? <==>
                           ObjAt(candidate, "paths").Some? && ObjAt(candidate["paths"].fields, path).Some? && other in candidate["paths"].fields[path].fields
    {
      AtThreeKeys(candidate, "paths", path, other);
    }
    AtThreeKeys(candidate, "paths", path, verb);
    if ObjAt(candidate, "paths").Some? && ObjAt(candidate["paths"].fields, path).Some? {
      var source := candidate["paths"].fields[path].fields;
      assert OtherVerbs(source, verb) == {} <==> forall other :: other in METHODS && other != verb ==> other !in source by {
        assert forall other :: other in OtherVerbs(source, verb) <==> other in METHODS && other in source && other != verb;
      }
    }
    hide METHODS;
  }

  /** The item of a path, when it is an object. */
  function ItemOf(d: Fields, path: string): Fields {
    match At(Obj(d), [Key("paths"), Key(path)])
    case Some(Obj(item)) => item
    case _ => map[]
  }

  /** A reference can be copied: it is plain, leads to something in the candidate, and meets nothing else in the document. */
  ghost predicate MayCopy(document: Fields, candidate: Fields, reference: string) {
    exists section, name ::
      && reference == RefOf(section, name) && '/' !in section && '/' !in name
      && !IsFree(candidate, [Key("components"), Key(section), Key(name)])
      && ("components" in document ==> document["components"].Obj?)
      && (section in ComponentsOf(document) ==> ComponentsOf(document)[section].Obj?)
      && At(Obj(document), [Key("components"), Key(section), Key(name)])
           in {None, At(Obj(candidate), [Key("components"), Key(section), Key(name)])}
  }

  lemma FaultlessExactly(document: Fields, candidate: Fields, reference: string)
    ensures ReferenceFault(document, candidate, reference).None? <==> MayCopy(document, candidate, reference)
  {
    var parts := Split(reference, '/');
    hide At, Split;
    forall section, name | reference == RefOf(section, name) && '/' !in section && '/' !in name
      ensures parts == ["#", "components", section, name]
    {
      PlainRefParts(section, name);
    }
    if |parts| == 4 && parts[..2] == ["#", "components"] {
      PlainRefOfParts(reference);
      AtThreeKeys(candidate, "components", parts[2], parts[3]);
      AtThreeKeys(document, "components", parts[2], parts[3]);
    }
  }

  lemma PlainRefParts(section: string, name: string)
    requires '/' !in section && '/' !in name
    ensures Split(RefOf(section, name), '/') == ["#", "components", section, name]
  {
    JoinOfFour(section, [name]);
    SplitUndoesJoin(["#", "components", section] + [name], '/');
    assert ["#", "components", section] + [name] == ["#", "components", section, name];
  }

  lemma PlainRefOfParts(reference: string)
    requires |Split(reference, '/')| == 4 && Split(reference, '/')[..2] == ["#", "components"]
    ensures var parts := Split(reference, '/'); reference == RefOf(parts[2], parts[3]) && '/' !in parts[2] && '/' !in parts[3]
  {
    var parts := Split(reference, '/');
    JoinUndoesSplit(reference, '/');
    assert parts[2] in parts && parts[3] in parts;
    assert parts == ["#", "components", parts[2]] + [parts[3]];
    JoinOfFour(parts[2], [parts[3]]);
  }

  /** What is accepted, and of what: exactly an operation that may be published and whose references can all be copied. */
  lemma PublishedExactly(published: Fields, candidate: Fields, verb: string, path: string, r: Outcome)
    requires Yields(published, candidate, verb, path, r)
    ensures r.Ok? <==>
            && MayPublish(published, candidate, verb, path)
            && forall x :: x in ToCopy(candidate, ItemOf(candidate, path)) ==> MayCopy(published, candidate, x)
  {
    PassesExactly(published, candidate, verb, path);
    hide Preflight, MayPublish, ReferenceFault, MayCopy, ToCopy;
    forall x ensures ReferenceFault(published, candidate, x).None? <==> MayCopy(published, candidate, x) { FaultlessExactly(published, candidate, x); }
  }

  // ------------------------------------------------------------------ the code

  method AdditiveDocument(published: Fields, candidate: Fields, verb: string, path: string) returns (r: Outcome)
    ensures Yields(published, candidate, verb, path, r)
  {
    hide Slot, Refs, Reachable, Needed, Universe, Out, Kept, Component, ReferenceFault, Extended;
    var checked := Preflight(published, candidate, verb, path);
    if checked.Fail? { return Err(checked.error); }
    var source := checked.source;
    var merged := WithPath(published, source, path);
    ghost var known, roots := ComponentsOf(candidate), Refs(Obj(source));
    ghost var universe := Universe(known, roots);
    var seen: set<string> := {};
    var frontier := Refs(Obj(source));
    RootsAreInside(known, roots);
    NothingKept(published, source, path, known);
    forall x | x in roots ensures Reachable(known, roots, x) { RootsAreReachable(known, roots, x); }
    while frontier != {}
      invariant roots <= seen + frontier <= universe
      invariant forall x :: x in seen ==> Out(known, x) <= seen + frontier && ReferenceFault(published, candidate, x).None?
      invariant forall x :: x in seen + frontier ==> Reachable(known, roots, x)
      invariant merged == Extended(published, source, path, Kept(known, seen))
      decreases universe - seen, frontier
    {
      var reference :| reference in frontier;
      frontier := frontier - {reference};
      if reference !in seen {
        FaultsDoNotMove(published, candidate, source, path, seen, reference);
        NeededIsReachable(known, roots, reference);
        var fault := ReferenceFault(merged, candidate, reference);
        if fault.Some? { return Err(fault.value); }
        var item := Component(candidate, reference);
        CopiedIsFound(published, candidate, reference);
        CopyOneMore(published, candidate, source, path, seen, reference);
        merged := Copied(merged, item.section, item.name, item.item);
        seen := seen + {reference};
        OutStaysInside(known, roots, reference);
        FoundIsFollowed(candidate, reference);
        forall x | x in Refs(item.item) ensures Reachable(known, roots, x) { OneStepFurther(known, roots, reference, x); }
        frontier := frontier + (Refs(item.item) - seen);
      }
    }
    ClosedReachableSetIsNeeded(known, roots, seen);
    r := Ok(merged);
  }

  /** merged["components"][section][name] = item, creating what is missing on the way. */
  function Copied(d: Fields, section: string, name: string, item: Json): Fields {
    var components := ComponentsOf(d);
    d["components" := Obj(components[section := Obj(SectionOf(components, section)[name := item])])]
  }

  lemma NothingKept(published: Fields, source: Fields, path: string, known: Fields)
    ensures Extended(published, source, path, Kept(known, {})) == WithPath(published, source, path)
  {
    assert Kept(known, {}) == map[];
  }

  /** A component that is found is the slot of its reference. */
  lemma FoundIsTheSlot(candidate: Fields, reference: string)
    ensures var c := Component(candidate, reference);
            c.Found? ==> && RefParts(reference) == Some(SlotName(c.section, c.name))
                         && Slot(ComponentsOf(candidate), reference) == Some(c.item) && c.item != Null
  {
    var parts := Split(reference, '/');
    if |parts| == 4 {
      assert parts[3..] == [parts[3]];
      assert parts[..2] == [parts[0], parts[1]];
    }
  }

  lemma FoundIsFollowed(candidate: Fields, reference: string)
    ensures var c := Component(candidate, reference);
            c.Found? ==> Out(ComponentsOf(candidate), reference) == Refs(c.item)
  {
    FoundIsTheSlot(candidate, reference);
  }

  lemma CopiedIsFound(d: Fields, candidate: Fields, reference: string)
    ensures ReferenceFault(d, candidate, reference).None? ==> Component(candidate, reference).Found?
  {
  }

  ghost predicate AllCopyable(published: Fields, candidate: Fields, seen: set<string>) {
    forall x :: x in seen ==> ReferenceFault(published, candidate, x).None?
  }

  /** Sections that receive components are objects in the published document, or absent. */
  lemma ReceivingSections(published: Fields, candidate: Fields, seen: set<string>, section: string)
    requires AllCopyable(published, candidate, seen) && section in Kept(ComponentsOf(candidate), seen)
    ensures SetDefault(published, "components").Some?
    ensures SetDefault(ComponentsOf(published), section).Some?
  {
    hide RefParts, Slot, Component;
    var known := ComponentsOf(candidate);
    var name :| name in known[section].fields && Keeps(section, name, seen);
    var x := RefOf(section, name);
    RefPartsReadsRefOf(x, section, name);
    FoundIsTheSlot(candidate, x);
    assert ReferenceFault(published, candidate, x).None?;
  }

  lemma KeptIsInKept(known: Fields, seen: set<string>, section: string, name: string)
    ensures var kept := Kept(known, seen);
            section in kept ==> kept[section].Obj? && (name in kept[section].fields ==> RefOf(section, name) in seen)
  {
  }

  /** The members copied so far can receive more. */
  ghost predicate Receptive(published: Fields, kept: Fields) {
    && (kept != map[] ==> SetDefault(published, "components").Some?)
    && (forall s :: s in kept ==> kept[s].Obj? && SetDefault(ComponentsOf(published), s).Some?)
  }

  lemma CopyableIsReceptive(published: Fields, candidate: Fields, seen: set<string>)
    requires AllCopyable(published, candidate, seen)
    ensures Receptive(published, Kept(ComponentsOf(candidate), seen))
  {
    var known := ComponentsOf(candidate);
    var kept := Kept(known, seen);
    hide Kept, AllCopyable, SetDefault, ComponentsOf;
    if kept != map[] {
      var s :| s in kept;
      ReceivingSections(published, candidate, seen, s);
    }
    forall s | s in kept ensures kept[s].Obj? && SetDefault(ComponentsOf(published), s).Some? {
      KeptIsInKept(known, seen, s, "");
      ReceivingSections(published, candidate, seen, s);
    }
  }

  lemma ComponentsOfExtended(published: Fields, source: Fields, path: string, kept: Fields)
    ensures var merged := Extended(published, source, path, kept);
            && SetDefault(merged, "components") == (if kept == map[] then SetDefault(published, "components") else Some(Adopt(ComponentsOf(published), kept)))
            && ComponentsOf(merged) == (if kept == map[] then ComponentsOf(published) else Adopt(ComponentsOf(published), kept))
  {
    hide Adopt;
    assert "components" != "paths";
  }

  lemma SectionOfAdopt(base: Fields, kept: Fields, s: string)
    ensures SetDefault(Adopt(base, kept), s) ==
            if s in kept && kept[s].Obj? then Some(SectionOf(base, s) + kept[s].fields)
            else if s in base then SetDefault(base, s) else SetDefault(kept, s)
  {
  }

  /** Copied components decide about their own slots; elsewhere the published document still does. */
  lemma FaultInExtended(published: Fields, source: Fields, path: string, kept: Fields, section: string, name: string, item: Json)
    requires Receptive(published, kept)
    ensures CopyFault(Extended(published, source, path, kept), section, name, item) ==
            if section in kept && name in kept[section].fields then
              (if kept[section].fields[name] != item then Some(ComponentDiffers) else None)
            else CopyFault(published, section, name, item)
  {
    ComponentsOfExtended(published, source, path, kept);
    SectionOfAdopt(ComponentsOf(published), kept, section);
    hide Adopt, Extended;
  }

  /** What was copied so far does not change whether another reference can be copied. */
  lemma FaultsDoNotMove(published: Fields, candidate: Fields, source: Fields, path: string, seen: set<string>, reference: string)
    requires AllCopyable(published, candidate, seen) && reference !in seen
    ensures var merged := Extended(published, source, path, Kept(ComponentsOf(candidate), seen));
            ReferenceFault(merged, candidate, reference) == ReferenceFault(published, candidate, reference)
  {
    hide Component, Kept, RefOf, RefParts, Slot, Extended, ComponentsOf, CopyFault;
    var c, kept := Component(candidate, reference), Kept(ComponentsOf(candidate), seen);
    if c.Found? {
      FoundIsTheSlot(candidate, reference);
      RefPartsReadsRefOf(reference, c.section, c.name);
      CopyableIsReceptive(published, candidate, seen);
      KeptIsInKept(ComponentsOf(candidate), seen, c.section, c.name);
      FaultInExtended(published, source, path, kept, c.section, c.name, c.item);
    }
  }

  /** Copying one more component into the result so far. */
  lemma CopyOneMore(published: Fields, candidate: Fields, source: Fields, path: string, seen: set<string>, reference: string)
    requires Component(candidate, reference).Found?
    ensures var known, c := ComponentsOf(candidate), Component(candidate, reference);
            Extended(published, source, path, Kept(known, seen + {reference}))
            == Copied(Extended(published, source, path, Kept(known, seen)), c.section, c.name, c.item)
  {
    var known, c := ComponentsOf(candidate), Component(candidate, reference);
    hide RefParts, Slot, Kept, Component, ComponentsOf, Adopt, WithPath;
    FoundIsTheSlot(candidate, reference);
    KeepOneMore(known, seen, reference);
    var before := Kept(known, seen);
    var m := if c.section in before then before[c.section].fields else map[];
    var after := before[c.section := Obj(m[c.name := c.item])];
    assert Kept(known, seen + {reference}) == after && c.section in after;
    var base := ComponentsOf(published);
    ComponentsOfExtended(published, source, path, before);
    AdoptingNothing(base);
    AdoptOneMore(base, before, c.section, c.name, c.item);
  }

  lemma AdoptingNothing(base: Fields)
    ensures Adopt(base, map[]) == base
  {
  }

  lemma AdoptMember(base: Fields, kept: Fields, s: string)
    ensures s in Adopt(base, kept) <==> s in base || s in kept
    ensures s in kept && kept[s].Obj? ==> Adopt(base, kept)[s] == Obj(SectionOf(base, s) + kept[s].fields)
    ensures s in base && s !in kept ==> Adopt(base, kept)[s] == base[s]
  {
  }

  lemma AdoptOneMore(base: Fields, before: Fields, section: string, name: string, item: Json)
    requires forall s :: s in before ==> before[s].Obj?
    ensures var m := if section in before then before[section].fields else map[];
            var was := Adopt(base, before);
            Adopt(base, before[section := Obj(m[name := item])]) == was[section := Obj(SectionOf(was, section)[name := item])]
  {
    hide Adopt, SectionOf;
    var was := Adopt(base, before);
    var m := if section in before then before[section].fields else map[];
    var after := before[section := Obj(m[name := item])];
    var expected := was[section := Obj(SectionOf(was, section)[name := item])];
    SectionGrows(base, before, section, name, item);
    forall s ensures s in Adopt(base, after) <==> s in expected
             ensures s in expected ==> Adopt(base, after)[s] == expected[s]
    {
      AdoptMember(base, before, s);
      AdoptMember(base, after, s);
    }
  }

  lemma SectionGrows(base: Fields, before: Fields, section: string, name: string, item: Json)
    requires section in before ==> before[section].Obj?
    ensures var m := if section in before then before[section].fields else map[];
            SectionOf(base, section) + m[name := item] == SectionOf(Adopt(base, before), section)[name := item]
  {
    var m := if section in before then before[section].fields else map[];
    var own := SectionOf(base, section);
    AdoptMember(base, before, section);
    hide Adopt;
    assert SectionOf(Adopt(base, before), section) == own + m by {
      if section !in before { assert own + m == own; }
    }
    hide SectionOf;
    assert own + m[name := item] == (own + m)[name := item];
  }

  // ------------------------------------------------------------------- results

  lemma SlotOfAdopt(base: Fields, known: Fields, seen: set<string>, reference: string)
    ensures Slot(Adopt(base, Kept(known, seen)), reference) ==
            if reference in seen && Slot(known, reference).Some? then Slot(known, reference) else Slot(base, reference)
  {
    SlotOfKept(known, seen, reference);
    var parts := RefParts(reference);
    if parts.Some? {
      var s := parts.value.section;
      KeptIsInKept(known, seen, s, parts.value.name);
      hide Kept, RefParts;
      SectionOfAdopt(base, Kept(known, seen), s);
      hide Adopt;
    }
  }

  /** The components of a successful result, reference by reference. */
  lemma ResultSlots(published: Fields, candidate: Fields, verb: string, path: string, merged: Fields, source: Fields, reference: string)
    requires Yields(published, candidate, verb, path, Ok(merged)) && Preflight(published, candidate, verb, path) == Pass(source)
    ensures reference in ToCopy(candidate, source) ==>
              && Slot(ComponentsOf(candidate), reference).Some? && Slot(ComponentsOf(candidate), reference) != Some(Null)
              && Slot(ComponentsOf(published), reference) in [None, Slot(ComponentsOf(candidate), reference)]
    ensures Slot(ComponentsOf(merged), reference) ==
              if reference in ToCopy(candidate, source) then Slot(ComponentsOf(candidate), reference)
              else Slot(ComponentsOf(published), reference)
  {
    var known, base, seen := ComponentsOf(candidate), ComponentsOf(published), ToCopy(candidate, source);
    hide Preflight, ToCopy, Kept, Slot, Adopt, Extended, ComponentsOf, Component, ReferenceFault, RefParts;
    if reference in seen { CopyableSlot(published, candidate, reference); }
    SlotOfAdopt(base, known, seen, reference);
    ComponentsOfExtended(published, source, path, Kept(known, seen));
    AdoptingNothing(base);
  }

  lemma CopyableSlot(published: Fields, candidate: Fields, reference: string)
    requires ReferenceFault(published, candidate, reference).None?
    ensures Slot(ComponentsOf(candidate), reference).Some? && Slot(ComponentsOf(candidate), reference) != Some(Null)
    ensures Slot(ComponentsOf(published), reference) in [None, Slot(ComponentsOf(candidate), reference)]
  {
    FoundIsTheSlot(candidate, reference);
    hide Component, RefParts;
  }

  /** The path item that is copied. */
  lemma SourceIsTheCandidates(published: Fields, candidate: Fields, verb: string, path: string, source: Fields)
    requires Preflight(published, candidate, verb, path) == Pass(source)
    ensures ObjAt(candidate, "paths").Some? && path in candidate["paths"].fields && candidate["paths"].fields[path] == Obj(source)
  {
  }

  lemma MembersOfExtended(published: Fields, source: Fields, path: string, kept: Fields)
    ensures var merged := Extended(published, source, path, kept);
            && ObjAt(merged, "paths") == Some(OrElse(ObjAt(published, "paths"), map[])[path := Obj(source)])
            && (forall key :: key in merged && key !in published ==> key == "paths" || key == "components")
            && (forall key :: key in published && key != "paths" && key != "components" ==> key in merged && merged[key] == published[key])
  {
    hide Adopt, ComponentsOf;
    assert "components" != "paths";
  }

  /** Nothing published changes: members, paths that are not null, and components. */
  lemma PublishedStays(published: Fields, candidate: Fields, verb: string, path: string, merged: Fields)
    requires Yields(published, candidate, verb, path, Ok(merged))
    ensures forall key :: key in published && key != "paths" && key != "components" ==> key in merged && merged[key] == published[key]
    ensures ObjAt(merged, "paths").Some?
    ensures forall p :: p in OrElse(ObjAt(published, "paths"), map[]) && published["paths"].fields[p] != Null ==>
              p in merged["paths"].fields && merged["paths"].fields[p] == published["paths"].fields[p]
    ensures forall x :: Slot(ComponentsOf(published), x).Some? ==> Slot(ComponentsOf(merged), x) == Slot(ComponentsOf(published), x)
  {
    hide Slot, Preflight, ComponentsOf, Extended, Kept, ReferenceFault, ToCopy;
    var source := Preflight(published, candidate, verb, path).source;
    MembersOfExtended(published, source, path, Kept(ComponentsOf(candidate), ToCopy(candidate, source)));
    PublishedItemIsTheSource(published, candidate, verb, path, source);
    forall x | Slot(ComponentsOf(published), x).Some?
      ensures Slot(ComponentsOf(merged), x) == Slot(ComponentsOf(published), x)
    {
      ResultSlots(published, candidate, verb, path, merged, source, x);
    }
  }

  lemma PublishedItemIsTheSource(published: Fields, candidate: Fields, verb: string, path: string, source: Fields)
    requires Preflight(published, candidate, verb, path) == Pass(source)
    ensures ObjAt(published, "paths").Some? && path in published["paths"].fields ==> published["paths"].fields[path] in [Null, Obj(source)]
  {
  }

  /** The only additions are the chosen path and components its references reach in the candidate. */
  lemma OnlyTheClosureIsAdded(published: Fields, candidate: Fields, verb: string, path: string, merged: Fields, source: Fields)
    requires Yields(published, candidate, verb, path, Ok(merged)) && Preflight(published, candidate, verb, path) == Pass(source)
    ensures ObjAt(candidate, "paths").Some? && path in candidate["paths"].fields && candidate["paths"].fields[path] == Obj(source)
    ensures ObjAt(merged, "paths") == Some(OrElse(ObjAt(published, "paths"), map[])[path := Obj(source)])
    ensures forall key :: key in merged && key !in published ==> key == "paths" || key == "components"
    ensures forall x :: Slot(ComponentsOf(merged), x).Some? && Slot(ComponentsOf(published), x).None? ==>
              Reachable(ComponentsOf(candidate), Refs(Obj(source)), x)
  {
    hide Slot, Preflight, Reachable, Needed, Extended, Kept, ReferenceFault, ComponentsOf;
    SourceIsTheCandidates(published, candidate, verb, path, source);
    MembersOfExtended(published, source, path, Kept(ComponentsOf(candidate), ToCopy(candidate, source)));
    forall x | Slot(ComponentsOf(merged), x).Some? && Slot(ComponentsOf(published), x).None?
      ensures Reachable(ComponentsOf(candidate), Refs(Obj(source)), x)
    {
      ResultSlots(published, candidate, verb, path, merged, source, x);
      NeededIsReachable(ComponentsOf(candidate), Refs(Obj(source)), x);
    }
  }

  lemma {:induction false} ChainsCarryOver(known: Fields, result: Fields, roots: set<string>, p: seq<string>)
    requires forall x :: x in Needed(known, roots) ==> Slot(result, x) == Slot(known, x)
    ensures Chain(known, roots, p) <==> Chain(result, roots, p)
    decreases |p|
  {
    hide Slot, Needed;
    if |p| > 1 {
      var shorter := p[..|p| - 1];
      ChainsCarryOver(known, result, roots, shorter);
      ChainSplits(known, roots, p);
      ChainSplits(result, roots, p);
      if Chain(known, roots, shorter) {
        assert shorter[|shorter| - 1] == p[|p| - 2];
        assert Reachable(known, roots, p[|p| - 2]);
        NeededIsReachable(known, roots, p[|p| - 2]);
        assert Out(result, p[|p| - 2]) == Out(known, p[|p| - 2]);
      }
    }
  }

  /**
   * Read from the published path, the result has the same reachable
   * references as the candidate, and each has the candidate's value.
   */
  lemma ResultIsClosed(published: Fields, candidate: Fields, verb: string, path: string, merged: Fields, source: Fields, reference: string)
    requires Yields(published, candidate, verb, path, Ok(merged)) && Preflight(published, candidate, verb, path) == Pass(source)
    ensures var roots := Refs(Obj(source));
            && (Reachable(ComponentsOf(merged), roots, reference) <==> Reachable(ComponentsOf(candidate), roots, reference))
            && (Reachable(ComponentsOf(merged), roots, reference) ==>
                  && Slot(ComponentsOf(merged), reference) == Slot(ComponentsOf(candidate), reference)
                  && Slot(ComponentsOf(merged), reference).Some? && Slot(ComponentsOf(merged), reference) != Some(Null))
  {
    hide Yields, Slot, Preflight, Needed, Refs, ComponentsOf;
    var known, result, roots := ComponentsOf(candidate), ComponentsOf(merged), Refs(Obj(source));
    forall x | x in Needed(known, roots) ensures Slot(result, x) == Slot(known, x) {
      ResultSlots(published, candidate, verb, path, merged, source, x);
    }
    forall p ensures Chain(known, roots, p) <==> Chain(result, roots, p) { ChainsCarryOver(known, result, roots, p); }
    NeededIsReachable(known, roots, reference);
    ResultSlots(published, candidate, verb, path, merged, source, reference);
  }

  /**
   * Publishing again changes nothing when the path has no other method; with
   * other methods (possible only for a path that was new) it is refused.
   */
  lemma PublishingAgain(published: Fields, candidate: Fields, verb: string, path: string, merged: Fields, source: Fields, again: Outcome)
    requires Yields(published, candidate, verb, path, Ok(merged)) && Preflight(published, candidate, verb, path) == Pass(source)
    requires Yields(merged, candidate, verb, path, again)
    ensures again == if OtherVerbs(source, verb) == {} then Ok(merged) else Err(OtherMethods)
  {
    hide Slot, Reachable, Needed, Kept, ReferenceFault, ComponentsOf, Extended, OtherVerbs, Preflight;
    var seen := ToCopy(candidate, source);
    var kept := Kept(ComponentsOf(candidate), seen);
    PreflightAgain(published, candidate, verb, path, source, kept);
    if OtherVerbs(source, verb) == {} {
      forall x | x in seen ensures ReferenceFault(merged, candidate, x).None? {
        CopiedHasNoFault(published, candidate, source, path, seen, x);
      }
      forall s | s in kept ensures kept[s].Obj? { KeptIsInKept(ComponentsOf(candidate), seen, s, ""); }
      ExtendingTwice(published, source, path, kept);
    }
  }

  lemma PreflightAgain(published: Fields, candidate: Fields, verb: string, path: string, source: Fields, kept: Fields)
    requires Preflight(published, candidate, verb, path) == Pass(source)
    ensures Preflight(Extended(published, source, path, kept), candidate, verb, path) ==
            if OtherVerbs(source, verb) == {} then Pass(source) else Fail(OtherMethods)
  {
    hide Extended, OtherVerbs;
    var merged := Extended(published, source, path, kept);
    OpenApiOfExtended(published, source, path, kept);
    MembersOfExtended(published, source, path, kept);
    SourceIsTheCandidates(published, candidate, verb, path, source);
    assert ObjAt(merged, "paths").value[path] == Obj(source);
    assert OrEmpty(merged, "paths") == ObjAt(merged, "paths");
  }

  lemma OpenApiOfExtended(published: Fields, source: Fields, path: string, kept: Fields)
    ensures Get(Extended(published, source, path, kept), "openapi") == Get(published, "openapi")
  {
    hide Adopt, ComponentsOf;
    assert "openapi" != "paths" && "openapi" != "components";
  }

  lemma CopiedHasNoFault(published: Fields, candidate: Fields, source: Fields, path: string, seen: set<string>, x: string)
    requires AllCopyable(published, candidate, seen) && x in seen
    ensures ReferenceFault(Extended(published, source, path, Kept(ComponentsOf(candidate), seen)), candidate, x).None?
  {
    hide Extended, RefParts, Slot, Kept, Component, CopyFault;
    var known, c := ComponentsOf(candidate), Component(candidate, x);
    assert ReferenceFault(published, candidate, x).None?;
    FoundIsTheSlot(candidate, x);
    CopyableIsReceptive(published, candidate, seen);
    SlotOfKept(known, seen, x);
    FaultInExtended(published, source, path, Kept(known, seen), c.section, c.name, c.item);
    KeptSlot(known, seen, x, c.section, c.name);
  }

  lemma KeptSlot(known: Fields, seen: set<string>, x: string, section: string, name: string)
    requires RefParts(x) == Some(SlotName(section, name)) && x in seen && Slot(known, x).Some?
    ensures var kept := Kept(known, seen);
            section in kept && kept[section].Obj? && name in kept[section].fields && Some(kept[section].fields[name]) == Slot(known, x)
  {
    SlotOfKept(known, seen, x);
  }

  lemma ExtendingTwice(published: Fields, source: Fields, path: string, kept: Fields)
    requires forall s :: s in kept ==> kept[s].Obj?
    ensures var merged := Extended(published, source, path, kept);
            Extended(merged, source, path, kept) == merged
  {
    var base, merged := ComponentsOf(published), Extended(published, source, path, kept);
    AdoptingTwice(base, kept);
    ComponentsOfExtended(published, source, path, kept);
    hide Adopt, ComponentsOf;
    assert "components" != "paths";
    var paths := OrElse(ObjAt(published, "paths"), map[])[path := Obj(source)];
    MembersOfExtended(published, source, path, kept);
    assert paths[path := Obj(source)] == paths;
    assert WithPath(merged, source, path) == merged["paths" := Obj(paths)];
    assert merged["paths"] == Obj(paths);
    assert merged["paths" := Obj(paths)] == merged;
    if kept != map[] {
      assert merged["components"] == Obj(Adopt(base, kept));
      assert merged["components" := Obj(Adopt(base, kept))] == merged;
    }
  }

  lemma AdoptingTwice(base: Fields, kept: Fields)
    requires forall s :: s in kept ==> kept[s].Obj?
    ensures Adopt(Adopt(base, kept), kept) == Adopt(base, kept)
  {
    hide Adopt;
    var once := Adopt(base, kept);
    var twice := Adopt(once, kept);
    forall s ensures s in twice <==> s in once
             ensures s in once ==> twice[s] == once[s] {
      AdoptMember(base, kept, s);
      AdoptMember(once, kept, s);
      if s in kept {
        var own := SectionOf(base, s);
        assert (own + kept[s].fields) + kept[s].fields == own + kept[s].fields;
      }
    }
  }
}
