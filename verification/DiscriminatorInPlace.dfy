/**
 * The mapping rewrite as it happens: the bundled tree consists of dicts and
 * lists, and mappings are replaced inside it (bundle_openapi_contract.py).
 */
module DiscriminatorInPlace {
  import opened Json
  import opened Pointer
  import opened Discriminator

  datatype Ref = Leaf(v: Json) | DictRef(d: Dict) | ListRef(l: List)

  class Dict {
    var entries: map<string, Ref>
    ghost var repr: set<object>

    constructor (entries: map<string, Ref>)
      ensures this.entries == entries && repr == {this}
    {
      this.entries := entries;
      repr := {this};
    }
  }

  class List {
    var items: seq<Ref>
    ghost var repr: set<object>

    constructor (items: seq<Ref>)
      ensures this.items == items && repr == {this}
    {
      this.items := items;
      repr := {this};
    }
  }

  ghost function Top(v: Ref): set<object> {
    match v case Leaf(_) => {} case DictRef(d) => {d} case ListRef(l) => {l}
  }

  ghost function ReprOf(v: Ref): set<object>
    reads Top(v)
  {
    match v case Leaf(_) => {} case DictRef(d) => d.repr case ListRef(l) => l.repr
  }

  /** A value of the heap stands for a tree, and no two places of it share an object. */
  ghost predicate Stands(v: Ref, tree: Json)
    reads Top(v), ReprOf(v)
    decreases tree
  {
    match v
    case Leaf(j) => j == tree && !tree.Obj? && !tree.Arr?
    case DictRef(d) =>
      && tree.Obj? && d in d.repr && d.entries.Keys == tree.fields.Keys
      && (forall k :: k in d.entries ==>
            Top(d.entries[k]) <= d.repr && ReprOf(d.entries[k]) <= d.repr - {d} && Stands(d.entries[k], tree.fields[k]))
      && (forall k, m :: k in d.entries && m in d.entries && k != m ==> ReprOf(d.entries[k]) !! ReprOf(d.entries[m]))
    case ListRef(l) =>
      && tree.Arr? && l in l.repr && |l.items| == |tree.items|
      && (forall i :: 0 <= i < |l.items| ==>
            Top(l.items[i]) <= l.repr && ReprOf(l.items[i]) <= l.repr - {l} && Stands(l.items[i], tree.items[i]))
      && (forall i, j :: 0 <= i < |l.items| && 0 <= j < |l.items| && i != j ==> ReprOf(l.items[i]) !! ReprOf(l.items[j]))
  }

  // ------------------------------------------------------------------- reading

  /** One variant against one discriminator value; None for a raised error. */
  method IsMatch(variant: Ref, name: string, value: string, ghost tree: Json) returns (r: Option<bool>)
    requires Stands(variant, tree)
    ensures tree.Obj? && ConstOf(tree.fields, name).Raise? ==> r == None
    ensures !(tree.Obj? && ConstOf(tree.fields, name).Raise?) ==> r == Some(IsVariant(tree, name, value))
  {
    if !variant.DictRef? { return Some(false); }
    if "properties" !in variant.d.entries { return Some(false); }
    var properties := variant.d.entries["properties"];
    assert Stands(properties, tree.fields["properties"]);
    if !properties.DictRef? { return None; }
    if name !in properties.d.entries { return Some(false); }
    var property := properties.d.entries[name];
    assert Stands(property, tree.fields["properties"].fields[name]);
    if !property.DictRef? { return None; }
    assert "const" in property.d.entries ==> Stands(property.d.entries["const"], tree.fields["properties"].fields[name].fields["const"]);
    return Some("const" in property.d.entries && property.d.entries["const"] == Leaf(Str(value)));
  }

  /** The positions of all matching variants; None for a raised error. */
  method Matching(variants: List, name: string, value: string, ghost tree: Json) returns (r: Option<seq<nat>>)
    requires Stands(ListRef(variants), tree)
    ensures r.Some? <==> Readable(tree.items, name)
    ensures r.Some? ==> r.value == MatchesFrom(tree.items, name, value, 0)
  {
    hide ConstOf, IsVariant, MatchesFrom;
    NoMatchesLeft(tree.items, name, value);
    var found: seq<nat> := [];
    assert found + MatchesFrom(tree.items, name, value, 0) == MatchesFrom(tree.items, name, value, 0);
    for i := 0 to |variants.items|
      invariant forall j :: 0 <= j < i && tree.items[j].Obj? ==> ConstOf(tree.items[j].fields, name) != Raise
      invariant found + MatchesFrom(tree.items, name, value, i) == MatchesFrom(tree.items, name, value, 0)
    {
      var m := IsMatch(variants.items[i], name, value, tree.items[i]);
      if m.None? { return None; }
      OneMoreMatch(tree.items, name, value, i, found);
      if m.value { found := found + [i]; }
    }
    assert found + [] == found;
    r := Some(found);
  }

  lemma NoMatchesLeft(items: seq<Json>, name: string, value: string)
    ensures MatchesFrom(items, name, value, |items|) == []
  {
  }

  lemma OneMoreMatch(items: seq<Json>, name: string, value: string, i: nat, found: seq<nat>)
    requires i < |items|
    ensures found + MatchesFrom(items, name, value, i)
         == (if IsVariant(items[i], name, value) then found + [i] else found) + MatchesFrom(items, name, value, i + 1)
  {
    hide IsVariant;
  }

  /** The new mapping; None for a raised error. */
  method Remap(mapping: Dict, variants: List, name: string, path: Path, ghost o: Fields) returns (r: Option<Fields>)
    requires Discriminated(o) && name == PropertyOf(o)
    requires Stands(DictRef(mapping), Obj(MappingOf(o))) && Stands(ListRef(variants), o["oneOf"])
    ensures r == Remapped(o, path)
  {
    hide Remapped, PrintPointer, MatchesFrom, Readable;
    var rewritten: Fields := map[];
    var todo := mapping.entries.Keys;
    ghost var items := o["oneOf"].items;
    KeysStand(mapping, o, variants);
    while todo != {}
      invariant todo <= mapping.entries.Keys
      invariant rewritten.Keys == mapping.entries.Keys - todo
      invariant rewritten != map[] ==> Readable(items, name)
      invariant forall value :: value in rewritten ==> HasEntry(items, name, path, value, rewritten[value])
    {
      var value :| value in todo;
      todo := todo - {value};
      var matches := Matching(variants, name, value, o["oneOf"]);
      if matches.None? || |matches.value| != 1 {
        NoMapping(o, path, value);
        return None;
      }
      var entry := Str("#" + PrintPointer(VariantPath(path, matches.value[0])));
      assert HasEntry(items, name, path, value, entry);
      rewritten := rewritten[value := entry];
    }
    WholeMapping(o, path, rewritten);
    r := Some(rewritten);
  }

  ghost predicate HasEntry(items: seq<Json>, name: string, path: Path, value: string, entry: Json) {
    |MatchesFrom(items, name, value, 0)| == 1 && entry == Str("#" + PrintPointer(VariantPath(path, MatchesFrom(items, name, value, 0)[0])))
  }

  lemma KeysStand(mapping: Dict, o: Fields, variants: List)
    requires Discriminated(o)
    requires Stands(DictRef(mapping), Obj(MappingOf(o))) && Stands(ListRef(variants), o["oneOf"])
    ensures mapping.entries.Keys == MappingOf(o).Keys
  {
  }

  lemma NoMapping(o: Fields, path: Path, value: string)
    requires Discriminated(o) && value in MappingOf(o)
    requires !Readable(o["oneOf"].items, PropertyOf(o)) || |MatchesFrom(o["oneOf"].items, PropertyOf(o), value, 0)| != 1
    ensures Remapped(o, path) == None
  {
    hide PrintPointer, MatchesFrom, Readable;
    assert MappingOf(o) != map[];
  }

  lemma WholeMapping(o: Fields, path: Path, rewritten: Fields)
    requires Discriminated(o) && rewritten.Keys == MappingOf(o).Keys
    requires rewritten != map[] ==> Readable(o["oneOf"].items, PropertyOf(o))
    requires forall value :: value in rewritten ==> HasEntry(o["oneOf"].items, PropertyOf(o), path, value, rewritten[value])
    ensures Remapped(o, path) == Some(rewritten)
  {
    hide PrintPointer, MatchesFrom, Readable;
    assert rewritten == map[] <==> MappingOf(o) == map[];
    assert forall value :: value in MappingOf(o) ==> value in rewritten;
    var r := Remapped(o, path);
    assert r.Some? && r.value.Keys == rewritten.Keys;
    forall value | value in rewritten ensures r.value[value] == rewritten[value] {
      assert HasEntry(o["oneOf"].items, PropertyOf(o), path, value, rewritten[value]);
    }
    assert r.value == rewritten;
  }

  // ------------------------------------------------------------------- rewriting

  ghost function With(tree: Json, mapping: Option<Fields>): Json {
    if mapping.Some? && tree.Obj? then Obj(tree.fields["mapping" := Obj(mapping.value)]) else tree
  }

  /** A bound on the depth of a tree, so that the walk is seen to end. */
  ghost predicate NotDeeper(tree: Json, n: nat)
    decreases tree
  {
    match tree
    case Obj(m) => n > 0 && forall k :: k in m ==> NotDeeper(m[k], n - 1)
    case Arr(items) => n > 0 && forall i :: 0 <= i < |items| ==> NotDeeper(items[i], n - 1)
    case _ => true
  }

  lemma {:induction false} DeeperStillHolds(tree: Json, n: nat, m: nat)
    requires NotDeeper(tree, n) && n <= m
    ensures NotDeeper(tree, m)
    decreases tree
  {
    match tree {
      case Obj(f) => forall k | k in f ensures NotDeeper(f[k], m - 1) { DeeperStillHolds(f[k], n - 1, m - 1); }
      case Arr(items) => forall i | 0 <= i < |items| ensures NotDeeper(items[i], m - 1) { DeeperStillHolds(items[i], n - 1, m - 1); }
      case _ =>
    }
  }

  /** Every tree has a depth. */
  lemma {:induction false} Depth(tree: Json) returns (n: nat)
    ensures NotDeeper(tree, n)
    decreases tree
  {
    match tree {
      case Obj(m) =>
        var todo, most: nat := m.Keys, 0;
        while todo != {}
          invariant todo <= m.Keys && forall k :: k in m.Keys - todo ==> NotDeeper(m[k], most)
        {
          var k :| k in todo;
          var own := Depth(m[k]);
          var more := if own > most then own else most;
          forall j | j in m.Keys - todo ensures NotDeeper(m[j], more) { DeeperStillHolds(m[j], most, more); }
          DeeperStillHolds(m[k], own, more);
          todo, most := todo - {k}, more;
        }
        n := most + 1;
      case Arr(items) =>
        var most: nat := 0;
        for i := 0 to |items|
          invariant forall j :: 0 <= j < i ==> NotDeeper(items[j], most)
        {
          var own := Depth(items[i]);
          var more := if own > most then own else most;
          forall j | 0 <= j < i ensures NotDeeper(items[j], more) { DeeperStillHolds(items[j], most, more); }
          DeeperStillHolds(items[i], own, more);
          most := more;
        }
        n := most + 1;
      case _ => n := 0;
    }
  }

  ghost predicate OnlyStrings(m: Fields) { forall k :: k in m ==> m[k].Str? }

  /** What the walk of an object knows about it: the new mapping, if it has one. */
  ghost function NewMapping(tree: Json, path: Path, own: Option<Fields>): Option<Fields>
    requires tree.Obj?
  {
    var e := With(tree, own).fields;
    if Discriminated(e) then Remapped(e, path) else None
  }

  /** A member before its own visit, and the mapping that was put into it; its own mapping is visited as it stands. */
  ghost function MemberTree(tree: Json, own: Option<Fields>, k: string): Json
    requires tree.Obj? && k in With(tree, own).fields
  {
    With(tree, own).fields[k]
  }

  ghost function MemberOwn(tree: Json, path: Path, own: Option<Fields>, k: string): Option<Fields>
    requires tree.Obj?
  {
    if k == "discriminator" then NewMapping(tree, path, own) else None
  }

  ghost function MemberResult(tree: Json, path: Path, own: Option<Fields>, k: string): Option<Json>
    requires tree.Obj? && k in With(tree, own).fields
  {
    Rewrite(MemberTree(tree, own, k), path + [Key(k)], MemberOwn(tree, path, own, k))
  }

  lemma StringsRewriteToThemselves(m: Fields, path: Path)
    requires OnlyStrings(m)
    ensures Rewrite(Obj(m), path, None) == Some(Obj(m))
  {
    assert !Discriminated(m);
    forall k | k in m ensures Rewrite(m[k], path + [Key(k)], None) == Some(m[k]) {}
    hide Discriminated, Remapped;
    assert Rewrite(Obj(m), path, None).value.fields == m;
  }

  predicate IsOwnMapping(own: Option<Fields>, k: string) { k == "mapping" && own.Some? }

  lemma ObjectSucceeds(tree: Json, path: Path, own: Option<Fields>)
    requires tree.Obj?
    ensures var e := With(tree, own).fields;
            Rewrite(tree, path, own).Some? <==>
              && (Discriminated(e) ==> Remapped(e, path).Some?)
              && forall k :: k in tree.fields && !IsOwnMapping(own, k) ==>
                   Rewrite(tree.fields[k], path + [Key(k)], MemberOwn(tree, path, own, k)).Some?
  {
    hide Discriminated, Remapped;
  }

  /** The rewriting of an object succeeds when all members do. */
  lemma ObjectSucceedsByMembers(tree: Json, path: Path, own: Option<Fields>)
    requires tree.Obj? && (own.Some? ==> OnlyStrings(own.value))
    ensures var e := With(tree, own).fields;
            Rewrite(tree, path, own).Some? <==>
              && (Discriminated(e) ==> Remapped(e, path).Some?)
              && forall k :: k in e ==> MemberResult(tree, path, own, k).Some?
  {
    hide Discriminated, Remapped, Rewrite;
    var e := With(tree, own).fields;
    ObjectSucceeds(tree, path, own);
    if own.Some? { StringsRewriteToThemselves(own.value, path + [Key("mapping")]); }
    forall k | k in e ensures k in tree.fields || IsOwnMapping(own, k) {}
    forall k | k in e && !IsOwnMapping(own, k)
      ensures MemberResult(tree, path, own, k) == Rewrite(tree.fields[k], path + [Key(k)], MemberOwn(tree, path, own, k))
    {
    }
    forall k | k in e && IsOwnMapping(own, k) ensures MemberResult(tree, path, own, k) == Some(Obj(own.value)) {}
  }

  /** And the result holds the results of the members. */
  lemma ObjectHoldsItsMembers(tree: Json, path: Path, own: Option<Fields>, members: Fields)
    requires tree.Obj? && (own.Some? ==> OnlyStrings(own.value)) && Rewrite(tree, path, own).Some?
    requires members.Keys == With(tree, own).fields.Keys
    requires forall k :: k in members ==> MemberResult(tree, path, own, k) == Some(members[k])
    ensures Rewrite(tree, path, own) == Some(Obj(members))
  {
    hide Discriminated, Remapped, Rewrite;
    var r := Rewrite(tree, path, own);
    RewriteKeepsShape(tree, path, own);
    if own.Some? { StringsRewriteToThemselves(own.value, path + [Key("mapping")]); MappingIsKept(tree, path, own); }
    forall k ensures k in r.value.fields <==> k in members
             ensures k in members ==> r.value.fields[k] == members[k] {
      if !IsOwnMapping(own, k) { RewrittenMember(tree, path, own, k); }
    }
    assert r.value.fields == members;
  }

  lemma MappingIsKept(tree: Json, path: Path, own: Option<Fields>)
    requires tree.Obj? && own.Some? && Rewrite(tree, path, own).Some?
    ensures var r := Rewrite(tree, path, own).value;
            r.Obj? && "mapping" in r.fields && r.fields["mapping"] == Obj(own.value)
  {
    hide Discriminated, Remapped;
  }

  // ---------------------------------------------------------------- the code

  ghost function WithNewMapping(e: Fields, path: Path): Fields {
    if Discriminated(e) && Remapped(e, path).Some?
    then e["discriminator" := With(e["discriminator"], Remapped(e, path))]
    else e
  }

  /** A value stands for a tree with objects of `room` only. */
  ghost predicate StandsIn(v: Ref, tree: Json, room: set<object>)
    reads Top(v), ReprOf(v)
  {
    Top(v) <= ReprOf(v) <= room && Stands(v, tree)
  }

  ghost predicate Apart(entries: map<string, Ref>)
    reads set k, o | k in entries && o in Top(entries[k]) :: o
  {
    forall k, m :: k in entries && m in entries && k != m ==> ReprOf(entries[k]) !! ReprOf(entries[m])
  }

  lemma OpenDict(d: Dict, e: Fields)
    requires Stands(DictRef(d), Obj(e))
    ensures d in d.repr && d.entries.Keys == e.Keys && Apart(d.entries)
    ensures forall k :: k in d.entries ==> StandsIn(d.entries[k], e[k], d.repr - {d})
  {
    forall k | k in d.entries ensures Top(d.entries[k]) <= ReprOf(d.entries[k]) { TopIsOwn(d.entries[k], e[k]); }
  }

  lemma CloseDict(d: Dict, e: Fields)
    requires d in d.repr && d.entries.Keys == e.Keys && Apart(d.entries)
    requires forall k :: k in d.entries ==> StandsIn(d.entries[k], e[k], d.repr - {d})
    ensures Stands(DictRef(d), Obj(e))
  {
  }

  lemma TopIsOwn(v: Ref, tree: Json)
    requires Stands(v, tree)
    ensures Top(v) <= ReprOf(v)
  {
  }

  /** One entry of a dict replaced by a value that shares nothing with it. */
  method SetMember(d: Dict, k: string, v: Ref, ghost m: Fields, ghost tree: Json)
    requires Stands(DictRef(d), Obj(m)) && Stands(v, tree) && ReprOf(v) !! d.repr
    modifies d
    ensures d.entries == old(d.entries)[k := v] && d.repr == old(d.repr) + ReprOf(v)
    ensures Stands(DictRef(d), Obj(m[k := tree]))
  {
    hide Stands;
    OpenDict(d, m);
    TopIsOwn(v, tree);
    ghost var entries := d.entries;
    ghost var room := d.repr - {d};
    d.entries := d.entries[k := v];
    d.repr := d.repr + ReprOf(v);
    NewEntry(d, entries, k, m, tree, room);
  }

  /** A dict that holds its old entries, and under `k` a value in new room, stands for the updated object. */
  lemma NewEntry(d: Dict, entries: map<string, Ref>, k: string, m: Fields, tree: Json, room: set<object>)
    requires k in d.entries && entries.Keys == m.Keys && d.entries == entries[k := d.entries[k]] && Apart(entries - {k})
    requires forall j :: j in entries && j != k ==> StandsIn(entries[j], m[j], room)
    requires StandsIn(d.entries[k], tree, d.repr - {d}) && ReprOf(d.entries[k]) !! room
    requires d in d.repr && d !in room && room <= d.repr
    ensures Stands(DictRef(d), Obj(m[k := tree]))
  {
    hide Stands;
    forall j | j in d.entries ensures StandsIn(d.entries[j], m[k := tree][j], d.repr - {d}) {
      assert j != k ==> StandsIn(entries[j], m[j], room);
    }
    forall i, j | i in d.entries && j in d.entries && i != j ensures ReprOf(d.entries[i]) !! ReprOf(d.entries[j]) {
      assert i != k ==> i in entries - {k} && StandsIn(entries[i], m[i], room);
      assert j != k ==> j in entries - {k} && StandsIn(entries[j], m[j], room);
    }
    CloseDict(d, m[k := tree]);
  }

  /** The objects beside one entry. */
  ghost function Beside(d: Dict, k: string): set<object>
    requires k in d.entries
    reads d, Top(d.entries[k])
  {
    d.repr - {d} - ReprOf(d.entries[k])
  }

  lemma RoomBeside(d: Dict, e: Fields, k: string)
    requires Stands(DictRef(d), Obj(e)) && k in d.entries
    ensures StandsIn(d.entries[k], e[k], d.repr - {d}) && Apart(d.entries - {k}) && d in d.repr && d.entries.Keys == e.Keys
    ensures forall j :: j in d.entries && j != k ==> StandsIn(d.entries[j], e[j], Beside(d, k))
  {
    OpenDict(d, e);
    hide Stands;
    forall j | j in d.entries && j != k ensures StandsIn(d.entries[j], e[j], Beside(d, k)) {
      assert StandsIn(d.entries[j], e[j], d.repr - {d});
    }
  }

  /** discriminator["mapping"] = rewritten. */
  method PutMapping(d: Dict, disc: Dict, rewritten: Fields, ghost e: Fields)
    requires Stands(DictRef(d), Obj(e)) && "discriminator" in d.entries && d.entries["discriminator"] == DictRef(disc)
    requires OnlyStrings(rewritten) && e["discriminator"].Obj?
    modifies d.repr
    ensures d.entries == old(d.entries) && fresh(d.repr - old(d.repr))
    ensures Stands(DictRef(d), Obj(e["discriminator" := With(e["discriminator"], Some(rewritten))]))
  {
    hide Stands, With;
    RoomBeside(d, e, "discriminator");
    ghost var room, target := Beside(d, "discriminator"), With(e["discriminator"], Some(rewritten));
    PutStrings(disc, rewritten, e["discriminator"].fields);
    IsWith(e["discriminator"], rewritten);
    AsStandsIn(DictRef(disc), target);
    d.repr := d.repr + disc.repr;
    NewEntry(d, d.entries, "discriminator", e, target, room);
  }

  lemma IsWith(tree: Json, rewritten: Fields)
    requires tree.Obj?
    ensures With(tree, Some(rewritten)) == Obj(tree.fields["mapping" := Obj(rewritten)])
  {
  }

  method PutStrings(disc: Dict, rewritten: Fields, ghost m: Fields)
    requires Stands(DictRef(disc), Obj(m)) && OnlyStrings(rewritten)
    modifies disc
    ensures fresh(disc.repr - old(disc.repr)) && old(disc.repr) <= disc.repr
    ensures Stands(DictRef(disc), Obj(m["mapping" := Obj(rewritten)]))
  {
    hide Stands;
    AsStandsIn(DictRef(disc), Obj(m));
    var added := new Dict(map k | k in rewritten :: Leaf(rewritten[k]));
    StringsStand(added, rewritten);
    SetMember(disc, "mapping", DictRef(added), m, Obj(rewritten));
  }

  lemma AsStandsIn(v: Ref, tree: Json)
    requires Stands(v, tree)
    ensures StandsIn(v, tree, ReprOf(v))
  {
    TopIsOwn(v, tree);
  }

  lemma StringsStand(d: Dict, m: Fields)
    requires OnlyStrings(m) && d.repr == {d} && d.entries == map k | k in m :: Leaf(m[k])
    ensures Stands(DictRef(d), Obj(m))
  {
  }

  lemma MappingIsStrings(e: Fields, path: Path)
    requires Discriminated(e) && Remapped(e, path).Some?
    ensures OnlyStrings(Remapped(e, path).value)
  {
  }

  /** The head of the walk: a discriminated object gets its new mapping; false for a raised error. */
  method TakeMapping(d: Dict, path: Path, ghost e: Fields) returns (ok: bool)
    requires Stands(DictRef(d), Obj(e))
    modifies d.repr
    ensures d.entries == old(d.entries) && fresh(d.repr - old(d.repr))
    ensures ok <==> (Discriminated(e) ==> Remapped(e, path).Some?)
    ensures ok ==> Stands(DictRef(d), Obj(WithNewMapping(e, path)))
  {
    hide Remapped, Stands;
    AsStandsIn(DictRef(d), Obj(e));
    OpenDict(d, e);
    if "discriminator" !in d.entries || "oneOf" !in d.entries { return true; }
    var disc, variants := d.entries["discriminator"], d.entries["oneOf"];
    SameKind(disc, e["discriminator"]);
    SameKind(variants, e["oneOf"]);
    if !disc.DictRef? || !variants.ListRef? { return true; }
    OpenDict(disc.d, e["discriminator"].fields);
    if "mapping" !in disc.d.entries || "propertyName" !in disc.d.entries { return true; }
    var mapping, property := disc.d.entries["mapping"], disc.d.entries["propertyName"];
    SameKind(mapping, e["discriminator"].fields["mapping"]);
    SameKind(property, e["discriminator"].fields["propertyName"]);
    if !mapping.DictRef? || !property.Leaf? || !property.v.Str? { return true; }
    var remapped := Remap(mapping.d, variants.l, property.v.s, path, e);
    if remapped.None? { return false; }
    MappingIsStrings(e, path);
    PutMapping(d, disc.d, remapped.value, e);
    return true;
  }

  lemma SameKind(v: Ref, tree: Json)
    requires Stands(v, tree)
    ensures (v.DictRef? <==> tree.Obj?) && (v.ListRef? <==> tree.Arr?) && (v.Leaf? ==> v.v == tree)
  {
  }

  // ----------------------------------------------------------------- lists

  ghost predicate ItemsApart(items: seq<Ref>, except: int)
    reads set i, o | 0 <= i < |items| && o in Top(items[i]) :: o
  {
    forall i, j :: 0 <= i < |items| && 0 <= j < |items| && i != j && i != except && j != except ==> ReprOf(items[i]) !! ReprOf(items[j])
  }

  lemma OpenList(l: List, t: seq<Json>)
    requires Stands(ListRef(l), Arr(t))
    ensures l in l.repr && |l.items| == |t| && ItemsApart(l.items, -1)
    ensures forall i :: 0 <= i < |l.items| ==> StandsIn(l.items[i], t[i], l.repr - {l})
  {
    forall i | 0 <= i < |l.items| ensures Top(l.items[i]) <= ReprOf(l.items[i]) { TopIsOwn(l.items[i], t[i]); }
  }

  lemma CloseList(l: List, t: seq<Json>)
    requires l in l.repr && |l.items| == |t| && ItemsApart(l.items, -1)
    requires forall i :: 0 <= i < |l.items| ==> StandsIn(l.items[i], t[i], l.repr - {l})
    ensures Stands(ListRef(l), Arr(t))
  {
  }

  lemma RoomBesideItem(l: List, t: seq<Json>, k: nat)
    requires Stands(ListRef(l), Arr(t)) && k < |l.items|
    ensures |l.items| == |t| && StandsIn(l.items[k], t[k], l.repr - {l}) && ItemsApart(l.items, k) && l in l.repr
    ensures forall j :: 0 <= j < |l.items| && j != k ==> StandsIn(l.items[j], t[j], l.repr - {l} - ReprOf(l.items[k]))
  {
    OpenList(l, t);
    hide Stands;
    forall j | 0 <= j < |l.items| && j != k ensures StandsIn(l.items[j], t[j], l.repr - {l} - ReprOf(l.items[k])) {
      assert StandsIn(l.items[j], t[j], l.repr - {l});
    }
  }

  lemma NewItem(l: List, k: nat, t: seq<Json>, tree: Json, room: set<object>)
    requires k < |l.items| == |t| && ItemsApart(l.items, k)
    requires forall j :: 0 <= j < |l.items| && j != k ==> StandsIn(l.items[j], t[j], room)
    requires StandsIn(l.items[k], tree, l.repr - {l}) && ReprOf(l.items[k]) !! room
    requires l in l.repr && l !in room && room <= l.repr
    ensures Stands(ListRef(l), Arr(t[k := tree]))
  {
    hide Stands;
    forall j | 0 <= j < |l.items| ensures StandsIn(l.items[j], t[k := tree][j], l.repr - {l}) {
      assert j != k ==> StandsIn(l.items[j], t[j], room);
    }
    forall i, j | 0 <= i < |l.items| && 0 <= j < |l.items| && i != j ensures ReprOf(l.items[i]) !! ReprOf(l.items[j]) {
      assert i != k ==> StandsIn(l.items[i], t[i], room);
      assert j != k ==> StandsIn(l.items[j], t[j], room);
    }
    CloseList(l, t[k := tree]);
  }

  // ------------------------------------------------------------------ the walk

  /** _rewrite_discriminator_mappings; false for a raised error, which leaves the tree half rewritten. */
  method RewriteNode(v: Ref, path: Path, ghost tree: Json, ghost own: Option<Fields>, ghost n: nat) returns (ok: bool)
    requires own.Some? ==> tree.Obj? && OnlyStrings(own.value)
    requires Stands(v, With(tree, own)) && NotDeeper(With(tree, own), n)
    modifies ReprOf(v)
    ensures fresh(ReprOf(v) - old(ReprOf(v)))
    ensures ok <==> Rewrite(tree, path, own).Some?
    ensures ok ==> Stands(v, Rewrite(tree, path, own).value)
    decreases n, 2
  {
    SameKind(v, With(tree, own));
    match v {
      case Leaf(_) => ok := true;
      case DictRef(d) =>
        hide *;
        ok := RewriteDict(d, path, tree, own, n);
      case ListRef(l) =>
        hide *;
        ok := RewriteList(l, path, tree, n);
    }
  }

  /** One member: its own part of the tree is rewritten, the rest stands as before. */
  method VisitMember(d: Dict, k: string, path: Path, ghost cur: Fields, ghost tree: Json, ghost own: Option<Fields>, ghost n: nat)
    returns (ok: bool)
    requires Stands(DictRef(d), Obj(cur)) && k in d.entries && k in cur && cur[k] == With(tree, own)
    requires (own.Some? ==> tree.Obj? && OnlyStrings(own.value)) && NotDeeper(cur[k], n)
    modifies d.repr
    ensures d.entries == old(d.entries) && fresh(d.repr - old(d.repr))
    ensures ok <==> Rewrite(tree, path, own).Some?
    ensures ok ==> Stands(DictRef(d), Obj(cur[k := Rewrite(tree, path, own).value]))
    decreases n, 3
  {
    hide Stands, Rewrite, NotDeeper, With;
    RoomBeside(d, cur, k);
    ghost var room := Beside(d, k);
    ok := RewriteNode(d.entries[k], path, tree, own, n);
    if ok {
      d.repr := d.repr + ReprOf(d.entries[k]);
      TopIsOwn(d.entries[k], Rewrite(tree, path, own).value);
      NewEntry(d, d.entries, k, cur, Rewrite(tree, path, own).value, room);
    }
  }

  method RewriteDict(d: Dict, path: Path, ghost tree: Json, ghost own: Option<Fields>, ghost n: nat) returns (ok: bool)
    requires tree.Obj? && (own.Some? ==> OnlyStrings(own.value))
    requires Stands(DictRef(d), With(tree, own)) && NotDeeper(With(tree, own), n)
    modifies d.repr
    ensures fresh(d.repr - old(d.repr))
    ensures ok <==> Rewrite(tree, path, own).Some?
    ensures ok ==> Stands(DictRef(d), Rewrite(tree, path, own).value)
    decreases n, 1
  {
    hide *;
    WithIsObject(tree, own);
    ghost var e := With(tree, own).fields;
    ObjectSucceedsByMembers(tree, path, own);
    ok := TakeMapping(d, path, e);
    if !ok { return; }
    ghost var cur := WithNewMapping(e, path);
    BeforeTheVisits(tree, path, own, n);
    OpenDict(d, cur);
    var todo := d.entries.Keys;
    while todo != {}
      invariant todo <= d.entries.Keys
      invariant Stands(DictRef(d), Obj(cur)) && fresh(d.repr - old(d.repr))
      invariant d.entries.Keys == cur.Keys == e.Keys && Visited(tree, path, own, cur, todo, n)
      invariant ok
    {
      var k :| k in todo;
      NextVisit(tree, path, own, cur, todo, n, k);
      ok := VisitMember(d, k, path + [Key(k)], cur, MemberTree(tree, own, k), MemberOwn(tree, path, own, k), n - 1);
      MemberResultIs(tree, path, own, k);
      if !ok { return; }
      AfterVisit(tree, path, own, cur, todo, n, k);
      cur := cur[k := MemberResult(tree, path, own, k).value];
      todo := todo - {k};
    }
    AllVisited(tree, path, own, cur, n);
  }

  /** Members visited so far hold their results, the others are as their visits expect them. */
  ghost predicate Visited(tree: Json, path: Path, own: Option<Fields>, cur: Fields, todo: set<string>, n: nat) {
    && n > 0 && tree.Obj? && cur.Keys == With(tree, own).fields.Keys && todo <= cur.Keys
    && (forall k :: k in todo ==> cur[k] == With(MemberTree(tree, own, k), MemberOwn(tree, path, own, k)) && NotDeeper(cur[k], n - 1))
    && (forall k :: k in cur && k !in todo ==> MemberResult(tree, path, own, k) == Some(cur[k]))
  }

  lemma WithIsObject(tree: Json, own: Option<Fields>)
    requires tree.Obj?
    ensures With(tree, own).Obj? && With(tree, own) == Obj(With(tree, own).fields)
  {
  }

  lemma NextVisit(tree: Json, path: Path, own: Option<Fields>, cur: Fields, todo: set<string>, n: nat, k: string)
    requires Visited(tree, path, own, cur, todo, n) && k in todo
    ensures n > 0 && k in cur && tree.Obj? && With(tree, own).Obj? && k in With(tree, own).fields
    ensures cur[k] == With(MemberTree(tree, own, k), MemberOwn(tree, path, own, k)) && NotDeeper(cur[k], n - 1)
    ensures MemberOwn(tree, path, own, k).Some? ==>
              MemberTree(tree, own, k).Obj? && OnlyStrings(MemberOwn(tree, path, own, k).value)
  {
    hide NotDeeper, MemberOwn, Rewrite;
    MemberOwnIsStrings(tree, path, own, k);
  }

  lemma AfterVisit(tree: Json, path: Path, own: Option<Fields>, cur: Fields, todo: set<string>, n: nat, k: string)
    requires Visited(tree, path, own, cur, todo, n) && k in todo
    requires MemberResult(tree, path, own, k).Some?
    ensures var next := cur[k := MemberResult(tree, path, own, k).value];
            Visited(tree, path, own, next, todo - {k}, n)
  {
    hide NotDeeper, MemberOwn, MemberTree, MemberResult, With;
  }

  lemma AllVisited(tree: Json, path: Path, own: Option<Fields>, cur: Fields, n: nat)
    requires tree.Obj? && (own.Some? ==> OnlyStrings(own.value)) && Visited(tree, path, own, cur, {}, n)
    requires var e := With(tree, own).fields; Discriminated(e) ==> Remapped(e, path).Some?
    ensures Rewrite(tree, path, own) == Some(Obj(cur))
  {
    hide Rewrite, Remapped, Discriminated, MemberResult;
    ObjectSucceedsByMembers(tree, path, own);
    ObjectHoldsItsMembers(tree, path, own, cur);
  }

  lemma MemberResultIs(tree: Json, path: Path, own: Option<Fields>, k: string)
    requires tree.Obj? && k in With(tree, own).fields
    ensures MemberResult(tree, path, own, k) == Rewrite(MemberTree(tree, own, k), path + [Key(k)], MemberOwn(tree, path, own, k))
  {
  }

  lemma MemberOwnIsStrings(tree: Json, path: Path, own: Option<Fields>, k: string)
    requires tree.Obj? && k in With(tree, own).fields
    ensures MemberOwn(tree, path, own, k).Some? ==>
              MemberTree(tree, own, k).Obj? && OnlyStrings(MemberOwn(tree, path, own, k).value)
  {
    var e := With(tree, own).fields;
    if Discriminated(e) && Remapped(e, path).Some? { MappingIsStrings(e, path); }
    hide Remapped;
  }

  /** After the mapping is in place every member is as its visit expects it. */
  lemma BeforeTheVisits(tree: Json, path: Path, own: Option<Fields>, n: nat)
    requires tree.Obj? && NotDeeper(With(tree, own), n)
    ensures var e := With(tree, own).fields;
            var cur := WithNewMapping(e, path);
            cur.Keys == e.Keys && Visited(tree, path, own, cur, e.Keys, n)
  {
    var e := With(tree, own).fields;
    var cur := WithNewMapping(e, path);
    forall k | k in e ensures k in cur && cur[k] == With(MemberTree(tree, own, k), MemberOwn(tree, path, own, k)) && NotDeeper(cur[k], n - 1) {
      BeforeTheVisit(tree, path, own, n, k);
    }
    hide MemberTree, MemberOwn, With, NotDeeper, Discriminated, Remapped;
  }

  lemma BeforeTheVisit(tree: Json, path: Path, own: Option<Fields>, n: nat, k: string)
    requires tree.Obj? && NotDeeper(With(tree, own), n) && k in With(tree, own).fields
    ensures var cur := WithNewMapping(With(tree, own).fields, path);
            n > 0 && k in cur && cur[k] == With(MemberTree(tree, own, k), MemberOwn(tree, path, own, k)) && NotDeeper(cur[k], n - 1)
  {
    hide Remapped;
    var e := With(tree, own).fields;
    if k == "discriminator" && Discriminated(e) && Remapped(e, path).Some? {
      MappingIsStrings(e, path);
      StringsAreNotDeeper(e[k], Remapped(e, path).value, n - 1);
    }
  }

  lemma StringsAreNotDeeper(tree: Json, mapping: Fields, n: int)
    requires tree.Obj? && "mapping" in tree.fields && tree.fields["mapping"].Obj? && OnlyStrings(mapping) && n >= 0 && NotDeeper(tree, n)
    ensures NotDeeper(With(tree, Some(mapping)), n)
  {
    assert NotDeeper(tree.fields["mapping"], n - 1);
    assert NotDeeper(Obj(mapping), n - 1);
  }

  method RewriteList(l: List, path: Path, ghost tree: Json, ghost n: nat) returns (ok: bool)
    requires tree.Arr? && Stands(ListRef(l), tree) && NotDeeper(tree, n)
    modifies l.repr
    ensures fresh(l.repr - old(l.repr))
    ensures ok <==> Rewrite(tree, path, None).Some?
    ensures ok ==> Stands(ListRef(l), Rewrite(tree, path, None).value)
    decreases n, 1
  {
    ListByItems(tree, path);
    OpenList(l, tree.items);
    hide Stands, Rewrite;
    ghost var cur := tree.items;
    var i := 0;
    while i < |l.items|
      invariant 0 <= i <= |l.items| == |cur| == |tree.items| && fresh(l.repr - old(l.repr))
      invariant Stands(ListRef(l), Arr(cur))
      invariant forall j: nat :: j < i ==> Rewrite(tree.items[j], path + [Index(j)], None) == Some(cur[j])
      invariant forall j: nat :: i <= j < |cur| ==> cur[j] == tree.items[j]
    {
      ok := VisitItem(l, i, path + [Index(i)], cur, n - 1);
      if !ok { return; }
      cur := cur[i := Rewrite(tree.items[i], path + [Index(i)], None).value];
      i := i + 1;
    }
    ok := true;
    assert Rewrite(tree, path, None).value.items == cur;
  }

  lemma ListByItems(tree: Json, path: Path)
    requires tree.Arr?
    ensures Rewrite(tree, path, None).Some? <==> forall i: nat :: i < |tree.items| ==> Rewrite(tree.items[i], path + [Index(i)], None).Some?
    ensures Rewrite(tree, path, None).Some? ==>
              var r := Rewrite(tree, path, None).value;
              && r.Arr? && |r.items| == |tree.items|
              && forall i: nat :: i < |tree.items| ==> Rewrite(tree.items[i], path + [Index(i)], None) == Some(r.items[i])
  {
  }

  method VisitItem(l: List, k: nat, path: Path, ghost cur: seq<Json>, ghost n: nat) returns (ok: bool)
    requires Stands(ListRef(l), Arr(cur)) && k < |l.items| && k < |cur| && NotDeeper(cur[k], n)
    modifies l.repr
    ensures l.items == old(l.items) && fresh(l.repr - old(l.repr))
    ensures ok <==> Rewrite(cur[k], path, None).Some?
    ensures ok ==> Stands(ListRef(l), Arr(cur[k := Rewrite(cur[k], path, None).value]))
    decreases n, 3
  {
    hide Stands, Rewrite, NotDeeper;
    RoomBesideItem(l, cur, k);
    ghost var room := l.repr - {l} - ReprOf(l.items[k]);
    ok := RewriteNode(l.items[k], path, cur[k], None, n);
    if ok {
      l.repr := l.repr + ReprOf(l.items[k]);
      TopIsOwn(l.items[k], Rewrite(cur[k], path, None).value);
      NewItem(l, k, cur, Rewrite(cur[k], path, None).value, room);
    }
  }

  /** The bundler's call on a whole document: in place, the document becomes its rewriting. */
  method RewriteDocument(v: Ref, ghost tree: Json) returns (ok: bool)
    requires Stands(v, tree)
    modifies ReprOf(v)
    ensures ok <==> Rewrite(tree, [], None).Some?
    ensures ok ==> Stands(v, Rewrite(tree, [], None).value)
  {
    ghost var n := Depth(tree);
    ok := RewriteNode(v, [], tree, None, n);
  }
}
