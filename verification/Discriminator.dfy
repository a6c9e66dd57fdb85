/** Discriminator mappings of a bundled contract (bundle_openapi_contract.py). */
module Discriminator {
  import opened Json
  import opened Pointer

  datatype ConstRead = Raise | Const(value: Json)

  /** variant.get("properties", {}).get(name, {}).get("const"), where a non-object on the way raises. */
  function ConstOf(variant: Fields, name: string): ConstRead {
    match if "properties" in variant then variant["properties"] else Obj(map[])
    case Obj(properties) =>
      (match if name in properties then properties[name] else Obj(map[])
       case Obj(property) => Const(Get(property, "const"))
       case _ => Raise)
    case _ => Raise
  }

  predicate IsVariant(v: Json, name: string, value: string) {
    v.Obj? && ConstOf(v.fields, name) == Const(Str(value))
  }

  lemma AtKeys(v: Json, a: string, b: string, c: string)
    ensures At(v, [Key(a), Key(b)]) ==
            if v.Obj? && ObjAt(v.fields, a).Some? && b in v.fields[a].fields then Some(v.fields[a].fields[b]) else None
    ensures At(v, [Key(a), Key(b), Key(c)]) ==
            if At(v, [Key(a), Key(b)]).Some? && At(v, [Key(a), Key(b)]).value.Obj? && c in At(v, [Key(a), Key(b)]).value.fields
            then Some(At(v, [Key(a), Key(b)]).value.fields[c]) else None
  {
    var two, three: Path := [Key(a), Key(b)], [Key(a), Key(b), Key(c)];
    AtInTwoSteps(v, [Key(a)], [Key(b)]);
    AtInTwoSteps(v, two, [Key(c)]);
    assert [Key(a)] + [Key(b)] == two && two + [Key(c)] == three;
    assert [Key(a)][1..] == [] && [Key(b)][1..] == [] && [Key(c)][1..] == [];
  }

  /** A variant of a value is an object whose schema pins the named property to that value. */
  lemma VariantsPinTheirProperty(v: Json, name: string, value: string)
    ensures IsVariant(v, name, value) <==> At(v, [Key("properties"), Key(name), Key("const")]) == Some(Str(value))
  {
    AtKeys(v, "properties", name, "const");
    hide At;
  }

  /** Reading a variant raises exactly when something that is no object stands on the way. */
  lemma VariantsRaiseExactly(variant: Fields, name: string)
    ensures ConstOf(variant, name).Raise? <==>
            || ("properties" in variant && !variant["properties"].Obj?)
            || (At(Obj(variant), [Key("properties"), Key(name)]).Some? && !At(Obj(variant), [Key("properties"), Key(name)]).value.Obj?)
  {
    AtKeys(Obj(variant), "properties", name, "const");
    hide At;
  }

  predicate Readable(variants: seq<Json>, name: string) {
    forall i :: 0 <= i < |variants| && variants[i].Obj? ==> ConstOf(variants[i].fields, name) != Raise
  }

  /** The positions of all matching variants, in order. */
  function MatchesFrom(variants: seq<Json>, name: string, value: string, from: nat): (r: seq<nat>)
    requires from <= |variants|
    ensures forall i :: i in r <==> from <= i < |variants| && IsVariant(variants[i], name, value)
    decreases |variants| - from
  {
    if from == |variants| then []
    else
      var rest := MatchesFrom(variants, name, value, from + 1);
      if IsVariant(variants[from], name, value) then [from] + rest else rest
  }

  /** An object whose mapping the bundler takes over. */
  predicate Discriminated(m: Fields) {
    && "discriminator" in m && m["discriminator"].Obj? && "oneOf" in m && m["oneOf"].Arr?
    && var d := m["discriminator"].fields;
       "mapping" in d && d["mapping"].Obj? && "propertyName" in d && d["propertyName"].Str?
  }

  function MappingOf(m: Fields): Fields
    requires Discriminated(m)
  {
    m["discriminator"].fields["mapping"].fields
  }

  function PropertyOf(m: Fields): string
    requires Discriminated(m)
  {
    m["discriminator"].fields["propertyName"].s
  }

  /** Where the mapping, the property name and the variants of a discriminated object stand. */
  lemma WhereMappingsStand(m: Fields)
    ensures Discriminated(m) <==>
            && (exists mapping :: At(Obj(m), [Key("discriminator"), Key("mapping")]) == Some(Obj(mapping)))
            && (exists name :: At(Obj(m), [Key("discriminator"), Key("propertyName")]) == Some(Str(name)))
            && "oneOf" in m && m["oneOf"].Arr?
    ensures Discriminated(m) ==>
              && At(Obj(m), [Key("discriminator"), Key("mapping")]) == Some(Obj(MappingOf(m)))
              && At(Obj(m), [Key("discriminator"), Key("propertyName")]) == Some(Str(PropertyOf(m)))
  {
    AtKeys(Obj(m), "discriminator", "mapping", "");
    AtKeys(Obj(m), "discriminator", "propertyName", "");
    hide At;
  }

  function VariantPath(path: Path, i: nat): Path { path + [Key("oneOf"), Index(i)] }

  /** The rewritten mapping of a discriminated object at `path`; None when an entry has not exactly one variant. */
  function Remapped(m: Fields, path: Path): Option<Fields>
    requires Discriminated(m)
  {
    var variants, name := m["oneOf"].items, PropertyOf(m);
    if MappingOf(m) != map[] && !Readable(variants, name) then None
    else if forall value | value in MappingOf(m) :: |MatchesFrom(variants, name, value, 0)| == 1 then
      Some(map value | value in MappingOf(m) ::
             Str("#" + PrintPointer(VariantPath(path, MatchesFrom(variants, name, value, 0)[0]))))
    else None
  }

  /**
   * The rewritten tree, None for a raised error. `mapping` is the new mapping
   * that the parent has already put into this (discriminator) object.
   */
  function Rewrite(v: Json, path: Path, mapping: Option<Fields>): Option<Json>
    decreases v
  {
    match v
    case Arr(items) =>
      if forall i: nat | i < |items| :: Rewrite(items[i], path + [Index(i)], None).Some?
      then Some(Arr(seq(|items|, i requires 0 <= i < |items| => Rewrite(items[i], path + [Index(i)], None).value)))
      else None
    case Obj(m) =>
      var e := if mapping.Some? then m["mapping" := Obj(mapping.value)] else m;
      if Discriminated(e) && Remapped(e, path).None? then None else
      var own := if Discriminated(e) then Remapped(e, path) else None;
      if forall name | name in m && !(name == "mapping" && mapping.Some?) ::
           Rewrite(m[name], path + [Key(name)], if name == "discriminator" then own else None).Some?
      then
        var children := map name | name in m && !(name == "mapping" && mapping.Some?) ::
                          Rewrite(m[name], path + [Key(name)], if name == "discriminator" then own else None).value;
        Some(Obj(if mapping.Some? then children["mapping" := Obj(mapping.value)] else children))
      else None
    case _ => Some(v)
  }

  // ---------------------------------------------------------- what is preserved

  predicate SameShape(v: Json, w: Json) {
    && (v.Obj? <==> w.Obj?) && (v.Arr? <==> w.Arr?) && (!v.Obj? && !v.Arr? ==> v == w)
  }

  lemma RewriteKeepsShape(v: Json, path: Path, mapping: Option<Fields>)
    requires Rewrite(v, path, mapping).Some?
    ensures SameShape(v, Rewrite(v, path, mapping).value)
    ensures v.Arr? ==> |Rewrite(v, path, mapping).value.items| == |v.items|
  {
  }

  /** How a member of an object comes out. */
  lemma RewrittenMember(v: Json, path: Path, mapping: Option<Fields>, name: string)
    requires v.Obj? && Rewrite(v, path, mapping).Some?
    requires !(name == "mapping" && mapping.Some?)
    ensures var w := Rewrite(v, path, mapping).value.fields;
            var e := if mapping.Some? then v.fields["mapping" := Obj(mapping.value)] else v.fields;
            && (Discriminated(e) ==> Remapped(e, path).Some?)
            && (name in w <==> name in v.fields)
            && (name in w ==>
                  var r := Rewrite(v.fields[name], path + [Key(name)],
                                   if name == "discriminator" && Discriminated(e) then Remapped(e, path) else None);
                  r == Some(w[name]) && SameShape(v.fields[name], w[name]))
  {
    if name in v.fields {
      var e := if mapping.Some? then v.fields["mapping" := Obj(mapping.value)] else v.fields;
      RewriteKeepsShape(v.fields[name], path + [Key(name)], if name == "discriminator" && Discriminated(e) then Remapped(e, path) else None);
    }
  }

  lemma ConstIsKept(v: Json, path: Path, mapping: Option<Fields>, value: string)
    requires v.Obj? && Rewrite(v, path, mapping).Some?
    ensures Get(Rewrite(v, path, mapping).value.fields, "const") == Str(value) <==> Get(v.fields, "const") == Str(value)
  {
    hide Rewrite;
    RewriteKeepsShape(v, path, mapping);
    RewrittenMember(v, path, mapping, "const");
  }

  /** Which discriminator values a variant stands for does not change. */
  lemma VariantIsKept(v: Json, path: Path, name: string, value: string)
    requires Rewrite(v, path, None).Some?
    ensures IsVariant(Rewrite(v, path, None).value, name, value) <==> IsVariant(v, name, value)
  {
    hide Rewrite;
    RewriteKeepsShape(v, path, None);
    if v.Obj? {
      RewrittenMember(v, path, None, "properties");
      if "properties" in v.fields && v.fields["properties"].Obj? {
        var p, pPath := v.fields["properties"], path + [Key("properties")];
        RewrittenMember(p, pPath, None, name);
        if name in p.fields && p.fields[name].Obj? {
          ConstIsKept(p.fields[name], pPath + [Key(name)],
                      if name == "discriminator" && Discriminated(p.fields) then Remapped(p.fields, pPath) else None, value);
        }
      }
    }
  }

  // --------------------------------------------------------------- the theorem

  /** Every mapping entry of the object at `path` points at the one variant that carries its value. */
  ghost predicate PointsAtVariants(o: Fields, path: Path) {
    Discriminated(o) ==>
      forall value :: value in MappingOf(o) ==>
        exists i: nat :: EntryPointsAt(o, path, value, i)
  }

  ghost predicate EntryPointsAt(o: Fields, path: Path, value: string, i: nat)
    requires Discriminated(o) && value in MappingOf(o)
  {
    && MappingOf(o)[value] == Str("#" + PrintPointer(VariantPath(path, i)))
    && i < |o["oneOf"].items|
    && forall j :: 0 <= j < |o["oneOf"].items| ==> (IsVariant(o["oneOf"].items[j], PropertyOf(o), value) <==> j == i)
  }

  lemma ObjectPointsAtVariants(v: Json, path: Path, mapping: Option<Fields>)
    requires v.Obj? && Rewrite(v, path, mapping).Some?
    ensures PointsAtVariants(Rewrite(v, path, mapping).value.fields, path)
  {
    var m := v.fields;
    var e := if mapping.Some? then m["mapping" := Obj(mapping.value)] else m;
    var w := Rewrite(v, path, mapping).value.fields;
    if Discriminated(w) {
      hide Rewrite;
      RewrittenMember(v, path, mapping, "discriminator");
      RewrittenMember(v, path, mapping, "oneOf");
      var d, dPath := m["discriminator"], path + [Key("discriminator")];
      var own := if Discriminated(e) then Remapped(e, path) else None;
      DiscriminatorComesOut(d, dPath, own);
      assert Discriminated(e);
      forall value | value in MappingOf(w) ensures exists i: nat :: EntryPointsAt(w, path, value, i) {
        EntryComesOut(e, path, w, value);
      }
    }
  }

  lemma DiscriminatorComesOut(d: Json, path: Path, own: Option<Fields>)
    requires d.Obj? && Rewrite(d, path, own).Some?
    ensures var w := Rewrite(d, path, own).value.fields;
            && (own.Some? ==> Get(w, "mapping") == Obj(own.value) && "mapping" in w)
            && (own.None? ==> ("mapping" in w <==> "mapping" in d.fields) && ("mapping" in w ==> SameShape(d.fields["mapping"], w["mapping"])))
            && ("propertyName" in w <==> "propertyName" in d.fields)
            && ("propertyName" in w ==> SameShape(d.fields["propertyName"], w["propertyName"]))
  {
    RewrittenMember(d, path, own, "propertyName");
    if own.None? { RewrittenMember(d, path, own, "mapping"); }
  }

  lemma OnlyMatch(matches: seq<nat>, j: nat)
    requires |matches| == 1
    ensures j in matches <==> j == matches[0]
  {
  }

  /** One element of a rewritten list. */
  lemma RewrittenItem(v: Json, path: Path, j: nat)
    requires v.Arr? && j < |v.items| && Rewrite(v, path, None).Some?
    ensures var r := Rewrite(v, path, None).value;
            && r.Arr? && |r.items| == |v.items|
            && Rewrite(v.items[j], path + [Index(j)], None) == Some(r.items[j])
  {
  }

  lemma EntryComesOut(e: Fields, path: Path, w: Fields, value: string)
    requires Discriminated(e) && Discriminated(w) && Remapped(e, path) == Some(MappingOf(w)) && PropertyOf(w) == PropertyOf(e)
    requires Rewrite(e["oneOf"], path + [Key("oneOf")], None) == Some(w["oneOf"])
    requires value in MappingOf(w)
    ensures exists i: nat :: EntryPointsAt(w, path, value, i)
  {
    hide Rewrite, PrintPointer, MatchesFrom, IsVariant;
    var variants, rewritten, name := e["oneOf"].items, w["oneOf"].items, PropertyOf(e);
    var matches := MatchesFrom(variants, name, value, 0);
    assert |matches| == 1;
    var i := matches[0];
    assert i in matches;
    RewriteKeepsShape(e["oneOf"], path + [Key("oneOf")], None);
    forall j: nat | j < |variants| ensures IsVariant(rewritten[j], name, value) <==> j == i {
      RewrittenItem(e["oneOf"], path + [Key("oneOf")], j);
      VariantIsKept(variants[j], path + [Key("oneOf")] + [Index(j)], name, value);
      OnlyMatch(matches, j);
    }
    assert EntryPointsAt(w, path, value, i);
  }

  /** In the rewritten tree every discriminated object at any path points at its own variants. */
  lemma {:induction false} MappingsPointAtVariants(v: Json, path: Path, mapping: Option<Fields>, q: Path)
    requires Rewrite(v, path, mapping).Some? && (mapping.Some? ==> v.Obj? && forall k :: k in mapping.value ==> mapping.value[k].Str?)
    requires At(Rewrite(v, path, mapping).value, q).Some? && At(Rewrite(v, path, mapping).value, q).value.Obj?
    ensures PointsAtVariants(At(Rewrite(v, path, mapping).value, q).value.fields, path + q)
    decreases v
  {
    var w := Rewrite(v, path, mapping).value;
    if q == [] {
      assert path + q == path;
      ObjectPointsAtVariants(v, path, mapping);
    } else {
      assert path + q == (path + [q[0]]) + q[1..];
      match q[0] {
        case Key(name) =>
          if name == "mapping" && mapping.Some? {
            StringsAreNotDiscriminated(mapping.value, q[1..]);
          } else {
            RewrittenMember(v, path, mapping, name);
            var e := if mapping.Some? then v.fields["mapping" := Obj(mapping.value)] else v.fields;
            MappingsPointAtVariants(v.fields[name], path + [Key(name)],
                                    if name == "discriminator" && Discriminated(e) then Remapped(e, path) else None, q[1..]);
          }
        case Index(i) => MappingsPointAtVariants(v.items[i], path + [Index(i)], None, q[1..]);
      }
    }
  }

  lemma StringsAreNotDiscriminated(m: Fields, q: Path)
    requires forall k :: k in m ==> m[k].Str?
    ensures At(Obj(m), q).Some? && At(Obj(m), q).value.Obj? ==> !Discriminated(At(Obj(m), q).value.fields)
  {
    if q != [] && q[0].Key? && q[0].name in m && |q| > 1 {
      assert q[1..] != [];
    }
  }

  /**
   * After bundling, reading any mapping entry of any discriminated object in the
   * whole document yields the unique oneOf variant whose const is that value.
   */
  lemma MappingsResolve(root: Json, bundled: Json, q: Path, value: string)
    requires Rewrite(root, [], None) == Some(bundled)
    requires At(bundled, q).Some? && At(bundled, q).value.Obj? && Discriminated(At(bundled, q).value.fields)
    requires value in MappingOf(At(bundled, q).value.fields)
    ensures var o := At(bundled, q).value.fields;
            && MappingOf(o)[value].Str? && "#" <= MappingOf(o)[value].s
            && exists i: nat :: i < |o["oneOf"].items|
                 && JsonPointer(bundled, MappingOf(o)[value].s[1..]) == Some(o["oneOf"].items[i])
                 && forall j :: 0 <= j < |o["oneOf"].items| ==> (IsVariant(o["oneOf"].items[j], PropertyOf(o), value) <==> j == i)
  {
    MappingsPointAtVariants(root, [], None, q);
    assert [] + q == q;
    var o := At(bundled, q).value.fields;
    var i: nat :| EntryPointsAt(o, q, value, i);
    VariantIsReached(bundled, q, i);
    PrintedPointersAreReadBack(bundled, VariantPath(q, i));
    assert MappingOf(o)[value].s[1..] == PrintPointer(VariantPath(q, i));
  }

  lemma VariantIsReached(v: Json, q: Path, i: nat)
    requires At(v, q).Some? && At(v, q).value.Obj? && "oneOf" in At(v, q).value.fields
    requires At(v, q).value.fields["oneOf"].Arr? && i < |At(v, q).value.fields["oneOf"].items|
    ensures At(v, VariantPath(q, i)) == Some(At(v, q).value.fields["oneOf"].items[i])
  {
    AtInTwoSteps(v, q, [Key("oneOf"), Index(i)]);
    var o := At(v, q).value;
    assert [Key("oneOf"), Index(i)][1..] == [Index(i)] && [Index(i)][1..] == [];
    assert At(o, [Key("oneOf"), Index(i)]) == At(o.fields["oneOf"], [Index(i)]);
    assert At(o.fields["oneOf"], [Index(i)]) == At(o.fields["oneOf"].items[i], []);
  }
}
