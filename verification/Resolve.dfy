/** Expansion of references across documents with a cycle check (validate_openapi_contract.py). */
module Resolve {
  import opened Json
  import opened Pointer

  /** Parsed files by resolved name; `locate` finds the file that a reference in another file names. */
  datatype Documents = Documents(files: map<string, Json>, locate: (string, string) -> string)

  datatype RefKey = RefKey(file: string, pointer: string)

  /** The texts before and after the first '#'. */
  function Partition(s: string): (string, string) {
    if s == "" then ("", "")
    else if s[0] == '#' then ("", s[1..])
    else var (a, b) := Partition(s[1..]); ([s[0]] + a, b)
  }

  function KeyOf(d: Documents, file: string, reference: string): RefKey {
    var (filePart, pointer) := Partition(reference);
    RefKey(if filePart != "" then d.locate(file, filePart) else file, pointer)
  }

  /** A reference names a file, which may be its own, and a place in it; without a '#' it names the whole file. */
  lemma ReferencesNameFileAndPlace(d: Documents, file: string, name: string, pointer: string)
    requires '#' !in name
    ensures KeyOf(d, file, name + "#" + pointer) == RefKey(if name == "" then file else d.locate(file, name), pointer)
    ensures KeyOf(d, file, name) == RefKey(if name == "" then file else d.locate(file, name), "")
  {
    FirstHash(name, pointer);
  }

  lemma {:induction false} FirstHash(name: string, pointer: string)
    requires '#' !in name
    ensures Partition(name + "#" + pointer) == (name, pointer) && Partition(name) == (name, "")
  {
    if name == "" {
      assert name + "#" + pointer == "#" + pointer;
    } else {
      assert name[0] in name && (name + "#" + pointer)[1..] == name[1..] + "#" + pointer && [name[0]] + name[1..] == name;
      FirstHash(name[1..], pointer);
    }
  }

  function Target(d: Documents, key: RefKey): Option<Json> {
    if key.file in d.files then JsonPointer(d.files[key.file], key.pointer) else None
  }

  /** A reference with a printed pointer leads to the place that the pointer was printed for. */
  lemma ReferencesLeadToPlaces(d: Documents, key: RefKey, path: Path)
    requires key.file in d.files && path != [] && At(d.files[key.file], path).Some? && key.pointer == PrintPointer(path)
    ensures Target(d, key) == At(d.files[key.file], path)
    ensures Target(d, RefKey(key.file, "")) == Some(d.files[key.file])
  {
    PrintedPointersAreReadBack(d.files[key.file], path);
  }

  predicate IsRef(v: Json) { v.Obj? && "$ref" in v.fields }

  /** The targets of all references at any depth of a value. */
  ghost function RefKeys(d: Documents, v: Json, file: string): set<RefKey> {
    match v
    case Arr(items) => set i, k | 0 <= i < |items| && k in RefKeys(d, items[i], file) :: k
    case Obj(m) =>
      (if "$ref" in m && m["$ref"].Str? then {KeyOf(d, file, m["$ref"].s)} else {})
      + set name, k | name in m && k in RefKeys(d, m[name], file) :: k
    case _ => {}
  }

  ghost function Universe(d: Documents): set<RefKey> {
    set f, k | f in d.files && k in RefKeys(d, d.files[f], f) :: k
  }

  /** Reading a pointer never leaves the references of its document. */
  lemma {:induction false} WalkStaysInside(d: Documents, v: Json, file: string, parts: seq<string>)
    requires Walk(v, parts).Some?
    ensures RefKeys(d, Walk(v, parts).value, file) <= RefKeys(d, v, file)
  {
    if parts != [] {
      WalkStaysInside(d, Hop(v, Unescape(parts[0])).value, file, parts[1..]);
    }
  }

  lemma TargetStaysInside(d: Documents, key: RefKey)
    requires Target(d, key).Some?
    ensures RefKeys(d, Target(d, key).value, key.file) <= Universe(d)
  {
    if key.pointer != "" {
      WalkStaysInside(d, d.files[key.file], key.file, Split(key.pointer[1..], '/'));
    }
  }

  /**
   * Expansion under a stack of the references being expanded; None is a raised error.
   * Either a new reference of the finite universe joins the stack, or the value shrinks.
   */
  function Expand(d: Documents, v: Json, file: string, stack: set<RefKey>): Option<Json>
    requires RefKeys(d, v, file) <= Universe(d)
    decreases Universe(d) - stack, v, 1
  {
    match v
    case Arr(items) =>
      if forall i | 0 <= i < |items| :: Expand(d, items[i], file, stack).Some?
      then Some(Arr(seq(|items|, i requires 0 <= i < |items| => Expand(d, items[i], file, stack).value)))
      else None
    case Obj(m) =>
      if "$ref" !in m then
        var fields := ExpandFields(d, v, file, stack);
        if fields.Some? then Some(Obj(fields.value)) else None
      else if !m["$ref"].Str? then None else
      var key := KeyOf(d, file, m["$ref"].s);
      if key in stack || Target(d, key).None? then None else
      TargetStaysInside(d, key);
      var resolved := Expand(d, Target(d, key).value, key.file, stack + {key});
      if resolved.None? || m.Keys == {"$ref"} then resolved
      else if !resolved.value.Obj? then None
      else
        var siblings := ExpandFields(d, v, file, stack);
        if siblings.Some? then Some(Obj(resolved.value.fields + siblings.value)) else None
    case _ => Some(v)
  }

  /** The members of an object other than its reference. */
  function ExpandFields(d: Documents, v: Json, file: string, stack: set<RefKey>): Option<Fields>
    requires v.Obj? && RefKeys(d, v, file) <= Universe(d)
    decreases Universe(d) - stack, v, 0
  {
    if forall name | name in v.fields && name != "$ref" :: Expand(d, v.fields[name], file, stack).Some?
    then Some(map name | name in v.fields && name != "$ref" :: Expand(d, v.fields[name], file, stack).value)
    else None
  }

  function LoadContract(d: Documents, entry: string): Option<Json>
    requires entry in d.files
  {
    var resolved := Expand(d, d.files[entry], entry, {});
    if resolved.Some? && resolved.value.Obj? then resolved else None
  }

  predicate NoRefs(v: Json) {
    match v
    case Arr(items) => forall i :: 0 <= i < |items| ==> NoRefs(items[i])
    case Obj(m) => "$ref" !in m && forall name :: name in m ==> NoRefs(m[name])
    case _ => true
  }

  /** What is expanded contains no reference at any depth. */
  lemma {:induction false} ExpandedHasNoRefs(d: Documents, v: Json, file: string, stack: set<RefKey>)
    requires RefKeys(d, v, file) <= Universe(d) && Expand(d, v, file, stack).Some?
    ensures NoRefs(Expand(d, v, file, stack).value)
    decreases Universe(d) - stack, v
  {
    match v {
      case Arr(items) =>
        forall i | 0 <= i < |items| ensures NoRefs(Expand(d, items[i], file, stack).value) {
          ExpandedHasNoRefs(d, items[i], file, stack);
        }
      case Obj(m) =>
        forall name | name in m && (name != "$ref" || "$ref" !in m) && Expand(d, m[name], file, stack).Some?
          ensures NoRefs(Expand(d, m[name], file, stack).value)
        {
          ExpandedHasNoRefs(d, m[name], file, stack);
        }
        if "$ref" in m {
          var key := KeyOf(d, file, m["$ref"].s);
          TargetStaysInside(d, key);
          ExpandedHasNoRefs(d, Target(d, key).value, key.file, stack + {key});
        }
      case _ =>
    }
  }

  /** A value without references expands to itself, so expanding twice is expanding once. */
  lemma {:induction false} NoRefsExpandToThemselves(d: Documents, v: Json, file: string, stack: set<RefKey>)
    requires NoRefs(v)
    ensures RefKeys(d, v, file) == {}
    ensures Expand(d, v, file, stack) == Some(v)
    decreases v
  {
    match v {
      case Arr(items) =>
        forall i | 0 <= i < |items| ensures RefKeys(d, items[i], file) == {} && Expand(d, items[i], file, stack) == Some(items[i]) {
          NoRefsExpandToThemselves(d, items[i], file, stack);
        }
        assert Expand(d, v, file, stack).value.items == items;
      case Obj(m) =>
        forall name | name in m ensures RefKeys(d, m[name], file) == {} && Expand(d, m[name], file, stack) == Some(m[name]) {
          NoRefsExpandToThemselves(d, m[name], file, stack);
        }
        assert ExpandFields(d, v, file, stack).value == m;
      case _ =>
    }
  }

  // ------------------------------------------------------------------- cycles

  /** Following references from a value: the first is in the value, each next one in the target of the one before. */
  ghost predicate Route(d: Documents, v: Json, file: string, p: seq<RefKey>)
    decreases |p|
  {
    p != [] ==>
      && p[0] in RefKeys(d, v, file)
      && (|p| > 1 ==> Target(d, p[0]).Some? && Route(d, Target(d, p[0]).value, p[0].file, p[1..]))
  }

  ghost predicate Repeats(p: seq<RefKey>) {
    exists i, j :: 0 <= i < j < |p| && p[i] == p[j]
  }

  /** A reference chain that does not run into a reference already seen ends at an object. */
  ghost predicate LeadsToObject(d: Documents, v: Json, file: string, seen: set<RefKey>)
    requires RefKeys(d, v, file) <= Universe(d)
    decreases Universe(d) - seen
  {
    && v.Obj?
    && ("$ref" in v.fields && v.fields["$ref"].Str? ==>
          var key := KeyOf(d, file, v.fields["$ref"].s);
          key in seen || Target(d, key).None? ||
          (TargetStaysInside(d, key); LeadsToObject(d, Target(d, key).value, key.file, seen + {key})))
  }

  /** References are strings that resolve, and siblings only stand next to references to objects. */
  ghost predicate WellFormed(d: Documents, v: Json, file: string)
    decreases v
  {
    match v
    case Arr(items) => forall i :: 0 <= i < |items| ==> WellFormed(d, items[i], file)
    case Obj(m) =>
      && (forall name :: name in m ==> WellFormed(d, m[name], file))
      && ("$ref" in m ==>
            && m["$ref"].Str?
            && var key := KeyOf(d, file, m["$ref"].s);
            && Target(d, key).Some?
            && (m.Keys != {"$ref"} ==> (TargetStaysInside(d, key); LeadsToObject(d, Target(d, key).value, key.file, {}))))
    case _ => true
  }

  ghost predicate AllWellFormed(d: Documents) {
    forall f :: f in d.files ==> WellFormed(d, d.files[f], f)
  }

  lemma {:induction false} WalkStaysWellFormed(d: Documents, v: Json, file: string, parts: seq<string>)
    requires WellFormed(d, v, file) && Walk(v, parts).Some?
    ensures WellFormed(d, Walk(v, parts).value, file)
  {
    if parts != [] {
      WalkStaysWellFormed(d, Hop(v, Unescape(parts[0])).value, file, parts[1..]);
    }
  }

  lemma TargetIsWellFormed(d: Documents, key: RefKey)
    requires AllWellFormed(d) && Target(d, key).Some?
    ensures WellFormed(d, Target(d, key).value, key.file)
  {
    if key.pointer != "" {
      WalkStaysWellFormed(d, d.files[key.file], key.file, Split(key.pointer[1..], '/'));
    }
  }

  /** Expansion succeeds on a value only when it succeeds on the target of each of its references, one deeper. */
  lemma {:induction false} SuccessDescends(d: Documents, v: Json, file: string, stack: set<RefKey>, key: RefKey)
    requires RefKeys(d, v, file) <= Universe(d) && Expand(d, v, file, stack).Some? && key in RefKeys(d, v, file)
    ensures key !in stack && Target(d, key).Some? && RefKeys(d, Target(d, key).value, key.file) <= Universe(d)
    ensures Expand(d, Target(d, key).value, key.file, stack + {key}).Some?
    decreases v
  {
    match v {
      case Arr(items) =>
        var i :| 0 <= i < |items| && key in RefKeys(d, items[i], file);
        SuccessDescends(d, items[i], file, stack, key);
      case Obj(m) =>
        if "$ref" in m && key == KeyOf(d, file, m["$ref"].s) {
          TargetStaysInside(d, key);
        } else {
          var name :| name in m && key in RefKeys(d, m[name], file);
          SuccessDescends(d, m[name], file, stack, key);
        }
      case _ =>
    }
  }

  /** When expansion succeeds no route from the value meets the stack or itself. */
  lemma {:induction false} SuccessHasNoRepeats(d: Documents, v: Json, file: string, stack: set<RefKey>, p: seq<RefKey>)
    requires RefKeys(d, v, file) <= Universe(d) && Expand(d, v, file, stack).Some? && Route(d, v, file, p)
    ensures !Repeats(p) && forall k :: k in p ==> k !in stack
    decreases |p|
  {
    if p != [] {
      SuccessDescends(d, v, file, stack, p[0]);
      if |p| > 1 {
        SuccessHasNoRepeats(d, Target(d, p[0]).value, p[0].file, stack + {p[0]}, p[1..]);
        assert p == [p[0]] + p[1..];
        forall i, j | 0 <= i < j < |p| ensures p[i] != p[j] {
          if i == 0 { assert p[j] in p[1..]; } else { assert p[1..][i - 1] != p[1..][j - 1]; }
        }
      }
    }
  }

  /** What a value expands to is an object exactly when its reference chain ends at one. */
  lemma {:induction false} ObjectsExpandToObjects(d: Documents, v: Json, file: string, stack: set<RefKey>, seen: set<RefKey>)
    requires RefKeys(d, v, file) <= Universe(d) && Expand(d, v, file, stack).Some?
    requires seen <= stack
    ensures Expand(d, v, file, stack).value.Obj? <==> LeadsToObject(d, v, file, seen)
    decreases Universe(d) - seen
  {
    if IsRef(v) {
      var key := KeyOf(d, file, v.fields["$ref"].s);
      TargetStaysInside(d, key);
      ObjectsExpandToObjects(d, Target(d, key).value, key.file, stack + {key}, seen + {key});
    }
  }

  lemma RoutesOfParts(d: Documents, part: Json, v: Json, file: string, q: seq<RefKey>)
    requires Route(d, part, file, q) && RefKeys(d, part, file) <= RefKeys(d, v, file)
    ensures Route(d, v, file, q)
  {
  }

  /** Without a repeating route below the trail expansion succeeds. */
  lemma {:induction false} SucceedsWithoutRepeats(d: Documents, v: Json, file: string, trail: seq<RefKey>)
    requires AllWellFormed(d) && WellFormed(d, v, file) && RefKeys(d, v, file) <= Universe(d)
    requires forall q :: Route(d, v, file, q) ==> !Repeats(trail + q)
    ensures Expand(d, v, file, set k | k in trail).Some?
    decreases Universe(d) - (set k | k in trail), v
  {
    var stack := set k | k in trail;
    match v {
      case Arr(items) =>
        forall i | 0 <= i < |items| ensures Expand(d, items[i], file, stack).Some? {
          forall q | Route(d, items[i], file, q) ensures !Repeats(trail + q) { RoutesOfParts(d, items[i], v, file, q); }
          SucceedsWithoutRepeats(d, items[i], file, trail);
        }
      case Obj(m) =>
        forall name | name in m ensures Expand(d, m[name], file, stack).Some? {
          forall q | Route(d, m[name], file, q) ensures !Repeats(trail + q) { RoutesOfParts(d, m[name], v, file, q); }
          SucceedsWithoutRepeats(d, m[name], file, trail);
        }
        if "$ref" in m { RefSucceedsWithoutRepeats(d, v, file, trail); }
      case _ =>
    }
  }

  /** Following a reference puts it on the trail, where it is new and where no route below meets it again. */
  lemma LongerTrail(d: Documents, v: Json, file: string, trail: seq<RefKey>, key: RefKey)
    requires key in RefKeys(d, v, file) && Target(d, key).Some?
    requires forall q :: Route(d, v, file, q) ==> !Repeats(trail + q)
    ensures key !in trail && (set k | k in trail + [key]) == (set k | k in trail) + {key}
    ensures forall q :: Route(d, Target(d, key).value, key.file, q) ==> !Repeats(trail + [key] + q)
  {
    hide RefKeys, Target;
    var longer := trail + [key];
    assert Route(d, v, file, [key]);
    assert longer[|trail|] == key && !Repeats(longer);
    forall i | 0 <= i < |trail| ensures trail[i] != key { assert longer[i] == trail[i]; }
    forall q | Route(d, Target(d, key).value, key.file, q) ensures !Repeats(longer + q) {
      assert ([key] + q)[1..] == q && Route(d, v, file, [key] + q);
      assert trail + ([key] + q) == longer + q;
    }
  }

  lemma {:induction false} RefSucceedsWithoutRepeats(d: Documents, v: Json, file: string, trail: seq<RefKey>)
    requires AllWellFormed(d) && WellFormed(d, v, file) && RefKeys(d, v, file) <= Universe(d) && IsRef(v)
    requires forall q :: Route(d, v, file, q) ==> !Repeats(trail + q)
    ensures var key := KeyOf(d, file, v.fields["$ref"].s);
            && key !in trail && Target(d, key).Some?
            && RefKeys(d, Target(d, key).value, key.file) <= Universe(d)
            && var r := Expand(d, Target(d, key).value, key.file, (set k | k in trail) + {key});
            && r.Some? && (v.fields.Keys != {"$ref"} ==> r.value.Obj?)
    decreases Universe(d) - (set k | k in trail), v, 0
  {
    var key := KeyOf(d, file, v.fields["$ref"].s);
    TargetStaysInside(d, key);
    TargetIsWellFormed(d, key);
    var target := Target(d, key).value;
    var longer := trail + [key];
    LongerTrail(d, v, file, trail, key);
    SucceedsWithoutRepeats(d, target, key.file, longer);
    if v.fields.Keys != {"$ref"} {
      ObjectsExpandToObjects(d, target, key.file, (set k | k in trail) + {key}, {});
    }
  }

  /**
   * On well-formed documents expansion fails exactly when some chain of
   * references from the entry comes back to a reference it already followed.
   */
  lemma FailsExactlyOnCycles(d: Documents, entry: string)
    requires AllWellFormed(d) && entry in d.files
    ensures RefKeys(d, d.files[entry], entry) <= Universe(d)
    ensures Expand(d, d.files[entry], entry, {}).None? <==> exists p :: Route(d, d.files[entry], entry, p) && Repeats(p)
  {
    var v := d.files[entry];
    assert (set k: RefKey | k in []) == {};
    if Expand(d, v, entry, {}).Some? {
      forall p | Route(d, v, entry, p) ensures !Repeats(p) { SuccessHasNoRepeats(d, v, entry, {}, p); }
    } else if forall p :: Route(d, v, entry, p) ==> !Repeats(p) {
      forall q | Route(d, v, entry, q) ensures !Repeats([] + q) { assert [] + q == q; }
      SucceedsWithoutRepeats(d, v, entry, []);
    }
  }

  /** A contract loads exactly when no chain of references comes back and the entry leads to an object; then no reference is left. */
  lemma LoadsExactlyWithoutCycles(d: Documents, entry: string)
    requires AllWellFormed(d) && entry in d.files
    ensures RefKeys(d, d.files[entry], entry) <= Universe(d)
    ensures LoadContract(d, entry).Some? <==>
            (forall p :: Route(d, d.files[entry], entry, p) ==> !Repeats(p)) && LeadsToObject(d, d.files[entry], entry, {})
    ensures LoadContract(d, entry).Some? ==> NoRefs(LoadContract(d, entry).value)
  {
    FailsExactlyOnCycles(d, entry);
    if Expand(d, d.files[entry], entry, {}).Some? {
      ObjectsExpandToObjects(d, d.files[entry], entry, {}, {});
      ExpandedHasNoRefs(d, d.files[entry], entry, {});
    }
  }

  // ------------------------------------------------------------------ meaning

  /** The stack only decides whether expansion fails, never what it yields. */
  lemma {:induction false} StackOnlyGuards(d: Documents, v: Json, file: string, stack: set<RefKey>, smaller: set<RefKey>)
    requires RefKeys(d, v, file) <= Universe(d) && Expand(d, v, file, stack).Some? && smaller <= stack
    ensures Expand(d, v, file, smaller) == Expand(d, v, file, stack)
    decreases Universe(d) - stack, v, 1
  {
    match v {
      case Arr(items) =>
        forall i | 0 <= i < |items| ensures Expand(d, items[i], file, smaller) == Expand(d, items[i], file, stack) {
          StackOnlyGuards(d, items[i], file, stack, smaller);
        }
        assert Expand(d, v, file, smaller).value.items == Expand(d, v, file, stack).value.items;
      case Obj(m) =>
        if m.Keys != {"$ref"} { GuardsOfFields(d, v, file, stack, smaller); }
        if "$ref" in m {
          var key := KeyOf(d, file, m["$ref"].s);
          TargetStaysInside(d, key);
          StackOnlyGuards(d, Target(d, key).value, key.file, stack + {key}, smaller + {key});
        }
      case _ =>
    }
  }

  lemma {:induction false} GuardsOfFields(d: Documents, v: Json, file: string, stack: set<RefKey>, smaller: set<RefKey>)
    requires v.Obj? && RefKeys(d, v, file) <= Universe(d) && ExpandFields(d, v, file, stack).Some? && smaller <= stack
    ensures ExpandFields(d, v, file, smaller) == ExpandFields(d, v, file, stack)
    decreases Universe(d) - stack, v, 0
  {
    forall name | name in v.fields && name != "$ref"
      ensures Expand(d, v.fields[name], file, smaller) == Expand(d, v.fields[name], file, stack)
    {
      StackOnlyGuards(d, v.fields[name], file, stack, smaller);
    }
    assert ExpandFields(d, v, file, smaller).value == ExpandFields(d, v, file, stack).value;
  }

  /** A value together with the file whose references it is read in. */
  datatype Located = Located(value: Json, file: string)

  /** One step down an unexpanded value: references are followed only as far as this step needs. */
  ghost function LazyHop(d: Documents, v: Json, file: string, part: PathPart, seen: set<RefKey>): Option<Located>
    requires RefKeys(d, v, file) <= Universe(d)
    decreases Universe(d) - seen
  {
    if IsRef(v) then
      if part.Key? && part.name != "$ref" && part.name in v.fields then Some(Located(v.fields[part.name], file))
      else if !v.fields["$ref"].Str? then None
      else
        var key := KeyOf(d, file, v.fields["$ref"].s);
        if key in seen || Target(d, key).None? then None
        else (TargetStaysInside(d, key); LazyHop(d, Target(d, key).value, key.file, part, seen + {key}))
    else
      match At(v, [part])
      case None => None
      case Some(child) => Some(Located(child, file))
  }

  ghost predicate Expandable(d: Documents, l: Located) {
    RefKeys(d, l.value, l.file) <= Universe(d) && Expand(d, l.value, l.file, {}).Some?
  }

  lemma {:induction false} LazyHopAgrees(d: Documents, v: Json, file: string, part: PathPart, stack: set<RefKey>)
    requires RefKeys(d, v, file) <= Universe(d) && Expand(d, v, file, stack).Some?
    ensures var l := LazyHop(d, v, file, part, stack);
            var read := At(Expand(d, v, file, stack).value, [part]);
            && (l.Some? <==> read.Some?)
            && (l.Some? ==> Expandable(d, l.value) && read == Expand(d, l.value.value, l.value.file, {}))
    decreases Universe(d) - stack
  {
    assert [part][1..] == [];
    if IsRef(v) {
      var m, key := v.fields, KeyOf(d, file, v.fields["$ref"].s);
      TargetStaysInside(d, key);
      LazyHopAgrees(d, Target(d, key).value, key.file, part, stack + {key});
      if part.Key? && part.name != "$ref" && part.name in m { StackOnlyGuards(d, m[part.name], file, stack, {}); }
    } else {
      match part {
        case Key(name) =>
          if v.Obj? && name in v.fields {
            assert At(v, [part]) == At(v.fields[name], []) == Some(v.fields[name]);
            StackOnlyGuards(d, v.fields[name], file, stack, {});
          }
        case Index(i) =>
          if v.Arr? && i < |v.items| {
            assert At(v, [part]) == At(v.items[i], []) == Some(v.items[i]);
            StackOnlyGuards(d, v.items[i], file, stack, {});
          }
      }
    }
  }

  ghost function LazyPath(d: Documents, l: Located, path: Path): Option<Located>
    requires Expandable(d, l)
    decreases |path|
  {
    if path == [] then Some(l) else
    var next := LazyHop(d, l.value, l.file, path[0], {});
    if next.None? then None
    else (LazyHopAgrees(d, l.value, l.file, path[0], {}); LazyPath(d, next.value, path[1..]))
  }

  /**
   * Expansion preserves meaning: any path read in the expanded value leads to
   * the expansion of what following references step by step leads to.
   */
  lemma {:induction false} ExpansionPreservesReading(d: Documents, l: Located, path: Path)
    requires Expandable(d, l)
    ensures var lazy, read := LazyPath(d, l, path), At(Expand(d, l.value, l.file, {}).value, path);
            && (lazy.Some? <==> read.Some?)
            && (lazy.Some? ==> Expandable(d, lazy.value) && read == Expand(d, lazy.value.value, lazy.value.file, {}))
    decreases |path|
  {
    if path != [] {
      LazyHopAgrees(d, l.value, l.file, path[0], {});
      AtInTwoSteps(Expand(d, l.value, l.file, {}).value, path[..1], path[1..]);
      assert path[..1] + path[1..] == path && path[..1] == [path[0]];
      var next := LazyHop(d, l.value, l.file, path[0], {});
      if next.Some? { ExpansionPreservesReading(d, next.value, path[1..]); }
    }
  }
}
