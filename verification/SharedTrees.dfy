/**
 * restrict_to_paths on the heap: the result shares subtrees with the base and
 * later paths are written through what earlier ones put there (merge-config.py).
 */
module SharedTrees {
  import opened Json
  import opened Allowlist

  /** A dict; lists are never walked, so a list is a leaf. */
  class Dict {
    var entries: map<string, Val>

    constructor ()
      ensures entries == map[]
    {
      entries := map[];
    }
  }

  datatype Val = Leaf(v: Json) | Node(d: Dict)

  /** A heap value stands for a tree, using dicts of s only. */
  ghost predicate Represents(v: Val, tree: Json, s: set<Dict>)
    reads s
    decreases tree
  {
    match tree
    case Obj(m) => v.Node? && v.d in s && v.d.entries.Keys == m.Keys && forall k :: k in m ==> Represents(v.d.entries[k], m[k], s)
    case _ => v == Leaf(tree)
  }

  ghost function HeapGet(v: Val, path: Keys, s: set<Dict>): Option<Val>
    reads s
    decreases |path|
  {
    if path == [] then Some(v)
    else if v.Node? && v.d in s && path[0] in v.d.entries then HeapGet(v.d.entries[path[0]], path[1..], s)
    else None
  }

  lemma {:induction false} HeapGetRepresents(v: Val, tree: Json, path: Keys, s: set<Dict>)
    requires Represents(v, tree, s)
    ensures HeapGet(v, path, s).Some? <==> GetPath(tree, path).Some?
    ensures HeapGet(v, path, s).Some? ==> Represents(HeapGet(v, path, s).value, GetPath(tree, path).value, s)
    decreases |path|
  {
    if path != [] && tree.Obj? && path[0] in tree.fields {
      HeapGetRepresents(v.d.entries[path[0]], tree.fields[path[0]], path[1..], s);
    }
  }

  lemma {:induction false} RepresentsWithMore(v: Val, tree: Json, s: set<Dict>, more: set<Dict>)
    requires Represents(v, tree, s) && s <= more
    ensures Represents(v, tree, more)
    decreases tree
  {
    if tree.Obj? {
      forall k | k in tree.fields ensures Represents(v.d.entries[k], tree.fields[k], more) {
        RepresentsWithMore(v.d.entries[k], tree.fields[k], s, more);
      }
    }
  }

  lemma {:induction false} HeapGetSnoc(v: Val, path: Keys, k: string, s: set<Dict>)
    ensures var at := HeapGet(v, path, s);
            HeapGet(v, path + [k], s) ==
              if at.Some? && at.value.Node? && at.value.d in s && k in at.value.d.entries then Some(at.value.d.entries[k]) else None
    decreases |path|
  {
    if path == [] {
      assert [k][1..] == [];
    } else {
      assert (path + [k])[1..] == path[1..] + [k];
      if v.Node? && v.d in s && path[0] in v.d.entries { HeapGetSnoc(v.d.entries[path[0]], path[1..], k, s); }
    }
  }

  lemma {:induction false} GetPathSnoc(v: Json, path: Keys, k: string)
    ensures var at := GetPath(v, path);
            GetPath(v, path + [k]) ==
              if at.Some? && at.value.Obj? && k in at.value.fields then Some(at.value.fields[k]) else None
    decreases |path|
  {
    if path == [] {
      assert [k][1..] == [];
    } else {
      assert (path + [k])[1..] == path[1..] + [k];
      if v.Obj? && path[0] in v.fields { GetPathSnoc(v.fields[path[0]], path[1..], k); }
    }
  }

  // --------------------------------------------- the shape of a result under construction

  /** A path at which the result has a dict of its own: on the way to a listed path or to the one being added. */
  ghost predicate IsOwn(found: set<Keys>, open: Keys, q: Keys) {
    !Covered(found, q) && (q <= open || exists p :: p in found && q <= p)
  }

  /** A path at which the result has an entry. */
  ghost predicate IsEntry(found: set<Keys>, open: Keys, q: Keys) { q <= open || exists p :: p in found && q <= p }

  function Snoc(q: Keys, k: string): Keys { q + [k] }

  /** An entry is the base's value at a listed path and an own dict elsewhere. */
  ghost predicate EntryIs(v: Val, at: Keys, own: map<Keys, Dict>, base: Val, s: set<Dict>, found: set<Keys>)
    reads s
  {
    if at in found then HeapGet(base, at, s) == Some(v) else at in own && v == Node(own[at])
  }

  ghost predicate EntriesAre(entries: map<string, Val>, at: Keys, own: map<Keys, Dict>, base: Val, s: set<Dict>,
                             found: set<Keys>, open: Keys)
    reads s
  {
    && (forall k :: k in entries <==> IsEntry(found, open, Snoc(at, k)))
    && (forall k :: k in entries ==> EntryIs(entries[k], Snoc(at, k), own, base, s, found))
  }

  /** Every own dict sits at one path. */
  ghost predicate OwnDicts(out: Dict, own: map<Keys, Dict>, s: set<Dict>, found: set<Keys>, open: Keys) {
    && [] in own && own[[]] == out && [] !in found
    && (forall q, r :: q in own && r in own && q != r ==> own[q] != own[r])
    && (forall q :: q in own ==> own[q] !in s)
    && (forall q :: q in own <==> IsOwn(found, open, q))
  }

  ghost predicate Shape(out: Dict, own: map<Keys, Dict>, base: Val, s: set<Dict>, found: set<Keys>, open: Keys)
    reads s, own.Values
  {
    && OwnDicts(out, own, s, found, open)
    && (forall q :: q in own ==> EntriesAre(own[q].entries, q, own, base, s, found, open))
  }

  function Tails(found: set<Keys>, q: Keys): set<Keys> { set p | p in found && q <= p :: p[|q|..] }

  lemma TailsSnoc(found: set<Keys>, q: Keys, k: string)
    ensures Below(Tails(found, q), k) == Tails(found, Snoc(q, k))
  {
    forall r | r in Tails(found, Snoc(q, k)) ensures r in Below(Tails(found, q), k) {
      var p :| p in found && Snoc(q, k) <= p && p[|q| + 1..] == r;
      var t := p[|q|..];
      assert t in Tails(found, q) && t != [] && t[0] == Snoc(q, k)[|q|] && t[1..] == r;
    }
    forall r | r in Below(Tails(found, q), k) ensures r in Tails(found, Snoc(q, k)) {
      var t :| t in Tails(found, q) && t != [] && t[0] == k && t[1..] == r;
      var p :| p in found && q <= p && p[|q|..] == t;
      assert Snoc(q, k) <= p && p[|q| + 1..] == r;
    }
  }

  /** A finished result stands for the trimmed tree. */
  lemma {:induction false} ShapeRepresents(out: Dict, own: map<Keys, Dict>, base: Val, tree: Json, s: set<Dict>, found: set<Keys>, q: Keys)
    requires Shape(out, own, base, s, found, []) && Represents(base, tree, s) && tree.Obj?
    requires q in own && AllFound(tree, found)
    ensures GetPath(tree, q).Some? && GetPath(tree, q).value.Obj?
    ensures Represents(Node(own[q]), Trim(GetPath(tree, q).value, Tails(found, q)), s + own.Values)
    decreases if GetPath(tree, q).Some? then GetPath(tree, q).value else tree
  {
    OwnMembers(out, own, base, tree, s, found, q);
    var v := GetPath(tree, q).value;
    var trimmed := Trim(v, Tails(found, q));
    forall k | k in trimmed.fields ensures Represents(own[q].entries[k], trimmed.fields[k], s + own.Values) {
      hide Shape, Represents, Trim, Tails, AllFound, IsOwn;
      var qk := Snoc(q, k);
      EntryOf(out, own, base, s, found, q, k);
      if qk in found {
        SharedMember(out, own, base, tree, s, found, q, k);
      } else {
        ShapeRepresents(out, own, base, tree, s, found, qk);
      }
    }
    hide Shape, Trim, Tails, AllFound, IsOwn;
  }

  lemma EntryOf(out: Dict, own: map<Keys, Dict>, base: Val, s: set<Dict>, found: set<Keys>, q: Keys, k: string)
    requires Shape(out, own, base, s, found, []) && q in own && k in own[q].entries
    ensures if Snoc(q, k) in found then HeapGet(base, Snoc(q, k), s) == Some(own[q].entries[k])
            else Snoc(q, k) in own && own[q].entries[k] == Node(own[Snoc(q, k)])
  {
  }

  lemma OwnMembers(out: Dict, own: map<Keys, Dict>, base: Val, tree: Json, s: set<Dict>, found: set<Keys>, q: Keys)
    requires Shape(out, own, base, s, found, []) && q in own && tree.Obj? && AllFound(tree, found)
    ensures GetPath(tree, q).Some? && GetPath(tree, q).value.Obj?
    ensures var v := GetPath(tree, q).value;
            var trimmed := Trim(v, Tails(found, q));
            && trimmed.Obj? && trimmed.fields.Keys == own[q].entries.Keys
            && (forall k :: k in trimmed.fields ==>
                  && k in v.fields && GetPath(tree, Snoc(q, k)) == Some(v.fields[k])
                  && trimmed.fields[k] == Trim(v.fields[k], Tails(found, Snoc(q, k))))
  {
    OwnPathsAreObjects(tree, found, q);
    NotEndedHere(found, [], q);
    var v := GetPath(tree, q).value;
    forall k ensures k in own[q].entries <==> IsEntry(found, [], Snoc(q, k)) {}
    hide Shape, Tails, AllFound, IsEntry, IsOwn, Below, Snoc;
    forall k
      ensures Below(Tails(found, q), k) == Tails(found, Snoc(q, k))
      ensures k in own[q].entries <==> k in v.fields && Tails(found, Snoc(q, k)) != {}
      ensures k in v.fields ==> GetPath(tree, Snoc(q, k)) == Some(v.fields[k])
    {
      TailsSnoc(found, q, k);
      EntriesAreBelow(tree, found, q, k);
      GetPathSnoc(tree, q, k);
      assert Snoc(q, k) == q + [k] by { SnocIs(q, k); }
    }
  }

  lemma SnocIs(q: Keys, k: string)
    ensures Snoc(q, k) == q + [k]
  {
  }

  lemma NotEndedHere(found: set<Keys>, open: Keys, q: Keys)
    requires IsOwn(found, open, q)
    ensures [] !in Tails(found, q)
  {
    forall p | p in found && q <= p ensures p[|q|..] != [] { assert !(p <= q); }
  }

  lemma SharedMember(out: Dict, own: map<Keys, Dict>, base: Val, tree: Json, s: set<Dict>, found: set<Keys>, q: Keys, k: string)
    requires Shape(out, own, base, s, found, []) && Represents(base, tree, s)
    requires q in own && k in own[q].entries && Snoc(q, k) in found && AllFound(tree, found)
    ensures GetPath(tree, Snoc(q, k)).Some?
    ensures Represents(own[q].entries[k], Trim(GetPath(tree, Snoc(q, k)).value, Tails(found, Snoc(q, k))), s + own.Values)
  {
    var qk := Snoc(q, k);
    EntryOf(out, own, base, s, found, q, k);
    hide Shape, Represents;
    assert qk[|qk|..] == [] && [] in Tails(found, qk);
    HeapGetRepresents(base, tree, qk, s);
    RepresentsWithMore(own[q].entries[k], GetPath(tree, qk).value, s, s + own.Values);
  }

  lemma OwnPathsAreObjects(tree: Json, found: set<Keys>, q: Keys)
    requires tree.Obj? && AllFound(tree, found) && IsOwn(found, [], q)
    ensures GetPath(tree, q).Some? && GetPath(tree, q).value.Obj?
  {
    if q != [] {
      var p :| p in found && q <= p;
      assert q != p;
      PrefixesAreObjects(tree, p, |q|);
      assert p[..|q|] == q;
    }
  }

  lemma {:induction false} PrefixesAreObjects(tree: Json, p: Keys, n: nat)
    requires GetPath(tree, p).Some? && n < |p|
    ensures GetPath(tree, p[..n]).Some? && GetPath(tree, p[..n]).value.Obj? && p[n] in GetPath(tree, p[..n]).value.fields
    decreases n
  {
    if n > 0 {
      PrefixesAreObjects(tree.fields[p[0]], p[1..], n - 1);
      assert p[..n][1..] == p[1..][..n - 1];
    }
  }

  lemma EntriesAreBelow(tree: Json, found: set<Keys>, q: Keys, k: string)
    requires AllFound(tree, found) && GetPath(tree, q).Some? && GetPath(tree, q).value.Obj?
    ensures IsEntry(found, [], Snoc(q, k)) <==> k in GetPath(tree, q).value.fields && Tails(found, Snoc(q, k)) != {}
  {
    var qk := Snoc(q, k);
    if IsEntry(found, [], qk) {
      var p :| p in found && qk <= p;
      assert p[|qk|..] in Tails(found, qk);
      PrefixesAreObjects(tree, p, |q|);
      assert p[..|q|] == q && p[|q|] == k;
    }
    if Tails(found, qk) != {} {
      var r :| r in Tails(found, qk);
      var p :| p in found && qk <= p && p[|qk|..] == r;
    }
  }

  // ------------------------------------------------------------------ the code

  method GetPathOf(node: Val, dotted: string, ghost tree: Json, ghost s: set<Dict>) returns (r: Option<Val>)
    requires Represents(node, tree, s)
    ensures r == HeapGet(node, Segments(dotted), s)
  {
    var cur := node;
    ghost var at := tree;
    var segs := Segments(dotted);
    for i := 0 to |segs|
      invariant Represents(cur, at, s)
      invariant HeapGet(node, segs, s) == HeapGet(cur, segs[i..], s)
    {
      if cur.Leaf? || segs[i] !in cur.d.entries { return None; }
      assert segs[i..][1..] == segs[i + 1..];
      at := at.fields[segs[i]];
      cur := cur.d.entries[segs[i]];
    }
    r := Some(cur);
  }

  /** Where the walk stands: in the base once a listed path is behind it, in a dict of the result before that. */
  ghost predicate StandsAt(cur: Dict, own: map<Keys, Dict>, base: Val, s: set<Dict>, found: set<Keys>, open: Keys)
    reads s
  {
    if Covered(found, open) then HeapGet(base, open, s) == Some(Node(cur)) && cur in s
    else open in own && own[open] == cur
  }

  lemma PrefixOfSnoc(q: Keys, open: Keys, k: string)
    ensures q <= Snoc(open, k) <==> q <= open || q == Snoc(open, k)
  {
    if q <= Snoc(open, k) && q != Snoc(open, k) { assert |q| <= |open| && q == Snoc(open, k)[..|q|] == open[..|q|]; }
  }

  lemma CoveredSnoc(found: set<Keys>, q: Keys, k: string)
    ensures Covered(found, Snoc(q, k)) <==> Covered(found, q) || Snoc(q, k) in found
  {
    if Covered(found, Snoc(q, k)) {
      var p :| p in found && p <= Snoc(q, k);
      PrefixOfSnoc(p, q, k);
    }
    if Covered(found, q) {
      var p :| p in found && p <= q;
      assert p <= Snoc(q, k);
    }
    if Snoc(q, k) in found { assert Snoc(q, k) <= Snoc(q, k); }
  }

  lemma SnocIsInjective(q: Keys, k: string, r: Keys, l: string)
    ensures Snoc(q, k) == Snoc(r, l) <==> q == r && k == l
  {
    assert Snoc(q, k)[..|q|] == q && Snoc(r, l)[..|r|] == r;
    assert Snoc(q, k)[|q|] == k && Snoc(r, l)[|r|] == l;
  }

  /** Walking on through an entry that is there already leaves the shape as it is. */
  lemma OpenExisting(out: Dict, own: map<Keys, Dict>, base: Val, s: set<Dict>, found: set<Keys>, open: Keys, k: string)
    requires Shape(out, own, base, s, found, open)
    requires Covered(found, open) || (open in own && k in own[open].entries)
    ensures Shape(out, own, base, s, found, Snoc(open, k))
  {
    var next := Snoc(open, k);
    CoveredSnoc(found, open, k);
    assert open in own && k in own[open].entries ==> IsEntry(found, open, next);
    forall q ensures IsOwn(found, next, q) <==> IsOwn(found, open, q) {
      PrefixOfSnoc(q, open, k);
      assert !(next <= open);
      if q == next && !Covered(found, next) { assert IsEntry(found, open, next); }
    }
    forall q, l | q in own ensures IsEntry(found, next, Snoc(q, l)) <==> IsEntry(found, open, Snoc(q, l)) {
      PrefixOfSnoc(Snoc(q, l), open, k);
      SnocIsInjective(q, l, open, k);
      assert !Covered(found, q);
    }
  }

  /** Which paths a new step adds: one own dict without entries, and the entry that holds it. */
  lemma OpenNewPaths(found: set<Keys>, open: Keys, k: string)
    requires IsOwn(found, open, open) && !IsEntry(found, open, Snoc(open, k))
    ensures var next := Snoc(open, k);
            && next !in found && !Covered(found, next)
            && (forall q :: IsOwn(found, next, q) <==> IsOwn(found, open, q) || q == next)
            && (forall q, l :: IsEntry(found, next, Snoc(q, l)) <==> IsEntry(found, open, Snoc(q, l)) || (q == open && l == k))
            && !IsOwn(found, open, next) && (forall l :: !IsEntry(found, next, Snoc(next, l)))
  {
    var next := Snoc(open, k);
    assert next <= next;
    CoveredSnoc(found, open, k);
    forall q ensures IsOwn(found, next, q) <==> IsOwn(found, open, q) || q == next { PrefixOfSnoc(q, open, k); }
    forall q, l ensures IsEntry(found, next, Snoc(q, l)) <==> IsEntry(found, open, Snoc(q, l)) || (q == open && l == k) {
      PrefixOfSnoc(Snoc(q, l), open, k);
      SnocIsInjective(q, l, open, k);
    }
    forall l ensures !IsEntry(found, next, Snoc(next, l)) {
      forall p | p in found ensures !(Snoc(next, l) <= p) { assert Snoc(next, l) <= p ==> next <= p; }
    }
  }

  /** The step that finds no entry: a new dict goes into a dict of the result. */
  method OpenNew(cur: Dict, k: string, out: Dict, base: Val,
                 ghost s: set<Dict>, ghost own: map<Keys, Dict>, ghost found: set<Keys>, ghost open: Keys)
    returns (c: Dict, ghost grown: map<Keys, Dict>)
    requires Shape(out, own, base, s, found, open) && open in own && own[open] == cur && k !in cur.entries
    modifies cur
    ensures fresh(c) && grown == own[Snoc(open, k) := c]
    ensures Shape(out, grown, base, s, found, Snoc(open, k)) && !Covered(found, Snoc(open, k))
  {
    ghost var next := Snoc(open, k);
    hide IsOwn, IsEntry, Covered, HeapGet, Snoc, EntriesAre, EntryIs;
    EntriesHere(cur.entries, open, own, base, s, found, open, k);
    OpenNewPaths(found, open, k);
    label before:
    c := new Dict();
    cur.entries := cur.entries[k := Node(c)];
    grown := own[next := c];
    forall q | q in grown ensures EntriesAre(grown[q].entries, q, grown, base, s, found, next) {
      if q == next {
        NoEntries(q, grown, base, s, found, next);
      } else if q == open {
        OneMoreEntry(old@before(cur.entries), own, base, s, found, open, k, c);
      } else {
        assert grown[q].entries == old@before(own[q].entries);
        SameEntries(grown[q].entries, q, own, base, s, found, open, k, c);
      }
    }
  }

  lemma EntriesHere(entries: map<string, Val>, at: Keys, own: map<Keys, Dict>, base: Val, s: set<Dict>, found: set<Keys>, open: Keys, k: string)
    requires EntriesAre(entries, at, own, base, s, found, open)
    ensures k in entries <==> IsEntry(found, open, Snoc(at, k))
    ensures k in entries ==> EntryIs(entries[k], Snoc(at, k), own, base, s, found)
  {
  }

  lemma NoEntries(at: Keys, own: map<Keys, Dict>, base: Val, s: set<Dict>, found: set<Keys>, open: Keys)
    requires forall l :: !IsEntry(found, open, Snoc(at, l))
    ensures EntriesAre(map[], at, own, base, s, found, open)
  {
  }

  lemma OneMoreEntry(entries: map<string, Val>, own: map<Keys, Dict>, base: Val, s: set<Dict>, found: set<Keys>, open: Keys, k: string, c: Dict)
    requires EntriesAre(entries, open, own, base, s, found, open) && IsOwn(found, open, open) && !IsEntry(found, open, Snoc(open, k))
    ensures EntriesAre(entries[k := Node(c)], open, own[Snoc(open, k) := c], base, s, found, Snoc(open, k))
  {
    OpenNewPaths(found, open, k);
    forall l | l in entries && l != k ensures Snoc(open, l) != Snoc(open, k) { SnocIsInjective(open, l, open, k); }
  }

  lemma SameEntries(entries: map<string, Val>, at: Keys, own: map<Keys, Dict>, base: Val, s: set<Dict>, found: set<Keys>, open: Keys, k: string, c: Dict)
    requires EntriesAre(entries, at, own, base, s, found, open) && IsOwn(found, open, open) && !IsEntry(found, open, Snoc(open, k))
    requires at != open
    ensures EntriesAre(entries, at, own[Snoc(open, k) := c], base, s, found, Snoc(open, k))
  {
    OpenNewPaths(found, open, k);
    forall l | l in entries ensures Snoc(at, l) != Snoc(open, k) { SnocIsInjective(at, l, open, k); }
  }

  /** What the final write changes: the target path becomes a listed one, and what was under it is dropped. */
  lemma ClosePaths(found: set<Keys>, open: Keys, k: string)
    ensures var t := Snoc(open, k);
            && (forall q :: IsOwn(found + {t}, [], q) <==> IsOwn(found, open, q) && !(t <= q))
            && (forall q, l :: IsOwn(found + {t}, [], q) ==>
                  (IsEntry(found + {t}, [], Snoc(q, l)) <==> IsEntry(found, open, Snoc(q, l)) || (q == open && l == k)))
  {
    var t := Snoc(open, k);
    forall q ensures IsOwn(found + {t}, [], q) <==> IsOwn(found, open, q) && !(t <= q) {
      PrefixOfSnoc(q, open, k);
      CoveredByOneMore(found, t, q);
      assert q <= [] ==> q <= open;
    }
    forall q, l | IsOwn(found + {t}, [], q)
      ensures IsEntry(found + {t}, [], Snoc(q, l)) <==> IsEntry(found, open, Snoc(q, l)) || (q == open && l == k)
    {
      PrefixOfSnoc(Snoc(q, l), open, k);
      SnocIsInjective(q, l, open, k);
      assert !(Snoc(q, l) <= []);
    }
  }

  lemma CoveredByOneMore(found: set<Keys>, t: Keys, q: Keys)
    ensures Covered(found + {t}, q) <==> Covered(found, q) || t <= q
  {
    if Covered(found, q) {
      var p :| p in found && p <= q;
      assert p in found + {t};
    }
    if t <= q { assert t in found + {t}; }
  }

  ghost function Without(own: map<Keys, Dict>, t: Keys): map<Keys, Dict> {
    map q | q in own && !(t <= q) :: own[q]
  }

  lemma EntriesClose(entries: map<string, Val>, at: Keys, own: map<Keys, Dict>, base: Val, s: set<Dict>, found: set<Keys>,
                     open: Keys, k: string, val: Val)
    requires EntriesAre(entries, at, own, base, s, found, open) && IsOwn(found + {Snoc(open, k)}, [], at)
    requires HeapGet(base, Snoc(open, k), s) == Some(val)
    ensures EntriesAre(if at == open then entries[k := val] else entries, at, Without(own, Snoc(open, k)), base, s,
                       found + {Snoc(open, k)}, [])
  {
    var t := Snoc(open, k);
    ClosePaths(found, open, k);
    hide IsOwn, IsEntry, HeapGet, Snoc;
    var after := if at == open then entries[k := val] else entries;
    forall l | l in after ensures EntryIs(after[l], Snoc(at, l), Without(own, t), base, s, found + {t}) {
      SnocIsInjective(at, l, open, k);
      if t != Snoc(at, l) { NotUnder(t, at, l); }
    }
  }

  lemma NotUnder(t: Keys, q: Keys, l: string)
    requires !(t <= q) && t != Snoc(q, l)
    ensures !(t <= Snoc(q, l))
  {
    PrefixOfSnoc(t, q, l);
  }

  lemma CoveredBaseIsNotOwn(cur: Dict, own: map<Keys, Dict>, out: Dict, base: Val, s: set<Dict>, found: set<Keys>, open: Keys, k: string, val: Val)
    requires OwnDicts(out, own, s, found, open) && StandsAt(cur, own, base, s, found, open)
    requires HeapGet(base, Snoc(open, k), s) == Some(val)
    ensures if Covered(found, open) then cur in s && k in cur.entries && cur.entries[k] == val else open in own && own[open] == cur && cur !in s
  {
    HeapGetSnoc(base, open, k, s);
  }

  /** The final write, which in a shared dict writes what is there already. */
  method WriteLast(cur: Dict, k: string, val: Val, out: Dict, base: Val, ghost tree: Json,
                   ghost s: set<Dict>, ghost own: map<Keys, Dict>, ghost found: set<Keys>, ghost open: Keys)
    returns (ghost grown: map<Keys, Dict>)
    requires Shape(out, own, base, s, found, open) && StandsAt(cur, own, base, s, found, open)
    requires HeapGet(base, Snoc(open, k), s) == Some(val) && Represents(base, tree, s)
    modifies cur
    ensures Represents(base, tree, s) && forall d :: d in s ==> d.entries == old(d.entries)
    ensures forall q :: q in grown ==> q in own && grown[q] == own[q]
    ensures Shape(out, grown, base, s, found + {Snoc(open, k)}, [])
  {
    hide IsOwn, IsEntry, HeapGet, Snoc, EntriesAre, EntryIs, Represents, Covered;
    ghost var t := Snoc(open, k);
    grown := Without(own, t);
    ClosePaths(found, open, k);
    CoveredBaseIsNotOwn(cur, own, out, base, s, found, open, k, val);
    label before:
    cur.entries := cur.entries[k := val];
    assert cur in s ==> cur.entries == old@before(cur.entries);
    forall q | q in grown ensures EntriesAre(grown[q].entries, q, grown, base, s, found + {t}, []) {
      assert cur in s ==> open !in own by { OwnIsNotCovered(out, own, s, found, open); }
      EntriesClose(old@before(own[q].entries), q, own, base, s, found, open, k, val);
    }
    assert [] in grown by { assert !(t <= []) by { SnocIsLonger(open, k); } }
    assert [] !in found + {t};
  }

  lemma SnocIsLonger(q: Keys, k: string)
    ensures Snoc(q, k) != [] && !(Snoc(q, k) <= [])
  {
  }

  lemma OwnIsNotCovered(out: Dict, own: map<Keys, Dict>, s: set<Dict>, found: set<Keys>, open: Keys)
    requires OwnDicts(out, own, s, found, open)
    ensures open in own ==> !Covered(found, open)
  {
  }

  /** One listed path: walk down with setdefault, then write the value. */
  method Put(out: Dict, segs: Keys, val: Val, base: Val, ghost tree: Json,
             ghost s: set<Dict>, ghost own: map<Keys, Dict>, ghost found: set<Keys>)
    returns (ghost grown: map<Keys, Dict>)
    requires Shape(out, own, base, s, found, []) && Represents(base, tree, s)
    requires segs != [] && HeapGet(base, segs, s) == Some(val)
    modifies own.Values, s
    ensures Represents(base, tree, s) && forall d :: d in s ==> d.entries == old(d.entries)
    ensures forall q :: q in grown ==> grown[q] in own.Values || fresh(grown[q])
    ensures Shape(out, grown, base, s, found + {segs}, [])
  {
    hide IsOwn, IsEntry, Represents, EntriesAre, EntryIs, Covered, Snoc;
    var cur := out;
    grown := own;
    HeapGetRepresents(base, tree, segs, s);
    StandsAtRoot(out, own, base, s, found);
    var j := 0;
    while j < |segs| - 1
      modifies own.Values
      invariant 0 <= j < |segs|
      invariant Shape(out, grown, base, s, found, segs[..j]) && StandsAt(cur, grown, base, s, found, segs[..j])
      invariant forall q :: q in grown ==> grown[q] in own.Values || fresh(grown[q])
    {
      TakeSnoc(segs, j);
      ghost var open := segs[..j];
      StandsOn(cur, out, grown, base, tree, s, found, segs, j);
      if segs[j] in cur.entries {
        OpenExisting(out, grown, base, s, found, open, segs[j]);
        cur := cur.entries[segs[j]].d;
      } else {
        var c;
        c, grown := OpenNew(cur, segs[j], out, base, s, grown, found, open);
        cur := c;
      }
      j := j + 1;
    }
    TakeSnoc(segs, j);
    assert segs[..j + 1] == segs;
    grown := WriteLast(cur, segs[j], val, out, base, tree, s, grown, found, segs[..j]);
  }

  lemma TakeSnoc(segs: Keys, j: nat)
    requires j < |segs|
    ensures segs[..j + 1] == Snoc(segs[..j], segs[j])
  {
  }

  lemma StandsAtRoot(out: Dict, own: map<Keys, Dict>, base: Val, s: set<Dict>, found: set<Keys>)
    requires OwnDicts(out, own, s, found, [])
    ensures StandsAt(out, own, base, s, found, [])
  {
  }

  /** Before the next hop: an entry that is there is a dict to stand on, and only an own dict can lack one. */
  lemma StandsOn(cur: Dict, out: Dict, own: map<Keys, Dict>, base: Val, tree: Json, s: set<Dict>, found: set<Keys>, segs: Keys, j: nat)
    requires j + 1 < |segs| && Shape(out, own, base, s, found, segs[..j]) && Represents(base, tree, s)
    requires StandsAt(cur, own, base, s, found, segs[..j]) && GetPath(tree, segs).Some?
    ensures segs[j] !in cur.entries ==> segs[..j] in own && own[segs[..j]] == cur
    ensures segs[j] in cur.entries ==>
              && cur.entries[segs[j]].Node?
              && StandsAt(cur.entries[segs[j]].d, own, base, s, found, segs[..j + 1])
              && (Covered(found, segs[..j]) || (segs[..j] in own && segs[j] in own[segs[..j]].entries))
  {
    var open, k := segs[..j], segs[j];
    hide IsOwn, IsEntry, EntriesAre, Represents;
    TakeSnoc(segs, j);
    PrefixesAreObjects(tree, segs, j + 1);
    HeapGetRepresents(base, tree, segs[..j + 1], s);
    NodeOf(HeapGet(base, segs[..j + 1], s).value, GetPath(tree, segs[..j + 1]).value, s);
    HeapGetSnoc(base, open, k, s);
    CoveredSnoc(found, open, k);
    if open in own { EntriesHere(own[open].entries, open, own, base, s, found, open, k); }
    hide HeapGet;
  }

  lemma NodeOf(v: Val, tree: Json, s: set<Dict>)
    requires Represents(v, tree, s) && tree.Obj?
    ensures v.Node? && v.d in s
  {
  }

  /**
   * The whole of restrict_to_paths: the base is as before although its dicts
   * were written through, and the result stands for the restricted tree.
   */
  method RestrictToPaths(base: Val, paths: seq<string>, ghost tree: Json, ghost s: set<Dict>)
    returns (out: Dict, ghost used: set<Dict>)
    requires Represents(base, tree, s)
    modifies s
    ensures Represents(base, tree, s) && forall d :: d in s ==> d.entries == old(d.entries)
    ensures Represents(Node(out), Restrict(tree, paths), used)
    ensures fresh(out) && forall d :: d in used ==> d in s || fresh(d)
  {
    out := new Dict();
    if base.Leaf? {
      used := {out};
      return;
    }
    assert tree.Obj?;
    hide FoundPaths, Trim, Tails, AllFound, OwnDicts, Represents, HeapGet;
    EmptyShape(out, map[[] := out], base, s);
    ghost var own := PutAll(out, base, paths, tree, s, map[[] := out]);
    ghost var found := FoundPaths(tree, paths);
    FoundAreFound(tree, paths);
    RootIsOwn(out, own, base, s, found);
    ShapeRepresents(out, own, base, tree, s, found, []);
    TailsOfAll(found);
    used := s + own.Values;
  }

  method PutAll(out: Dict, base: Val, paths: seq<string>, ghost tree: Json, ghost s: set<Dict>, ghost start: map<Keys, Dict>)
    returns (ghost own: map<Keys, Dict>)
    requires Shape(out, start, base, s, {}, []) && Represents(base, tree, s)
    modifies s, start.Values
    ensures Represents(base, tree, s) && forall d :: d in s ==> d.entries == old(d.entries)
    ensures forall q :: q in own ==> own[q] in start.Values || fresh(own[q])
    ensures Shape(out, own, base, s, FoundPaths(tree, paths), [])
  {
    hide FoundPaths, Represents, HeapGet, Shape;
    own := start;
    NoPathsFound(tree, paths);
    for i := 0 to |paths|
      invariant Represents(base, tree, s) && forall d :: d in s ==> d.entries == old(d.entries)
      invariant forall q :: q in own ==> own[q] in start.Values || fresh(own[q])
      invariant Shape(out, own, base, s, FoundPaths(tree, paths[..i]), [])
    {
      var segs := Segments(paths[i]);
      var val := GetPathOf(base, paths[i], tree, s);
      HeapGetRepresents(base, tree, segs, s);
      OneMorePath(tree, paths, i);
      if val.Some? {
        own := Put(out, segs, val.value, base, tree, s, own, FoundPaths(tree, paths[..i]));
      }
    }
    assert paths[..|paths|] == paths;
  }

  lemma NoPathsFound(tree: Json, paths: seq<string>)
    ensures FoundPaths(tree, paths[..0]) == {}
  {
  }

  lemma RootIsOwn(out: Dict, own: map<Keys, Dict>, base: Val, s: set<Dict>, found: set<Keys>)
    requires Shape(out, own, base, s, found, [])
    ensures [] in own && own[[]] == out
  {
  }

  lemma EmptyShape(out: Dict, own: map<Keys, Dict>, base: Val, s: set<Dict>)
    requires own == map[[] := out] && out.entries == map[] && out !in s
    ensures Shape(out, own, base, s, {}, [])
  {
  }

  lemma OneMorePath(tree: Json, paths: seq<string>, i: nat)
    requires i < |paths|
    ensures FoundPaths(tree, paths[..i + 1]) ==
            if GetPath(tree, Segments(paths[i])).Some? then FoundPaths(tree, paths[..i]) + {Segments(paths[i])}
            else FoundPaths(tree, paths[..i])
  {
    forall p | p in FoundPaths(tree, paths[..i]) ensures p in FoundPaths(tree, paths[..i + 1]) {
      var j :| 0 <= j < i && GetPath(tree, Segments(paths[..i][j])).Some? && Segments(paths[..i][j]) == p;
      assert paths[..i + 1][j] == paths[..i][j];
    }
    if GetPath(tree, Segments(paths[i])).Some? { assert paths[..i + 1][i] == paths[i]; }
    forall p | p in FoundPaths(tree, paths[..i + 1]) && p != Segments(paths[i]) ensures p in FoundPaths(tree, paths[..i]) {
      var j :| 0 <= j < i + 1 && GetPath(tree, Segments(paths[..i + 1][j])).Some? && Segments(paths[..i + 1][j]) == p;
      assert paths[..i + 1][j] == paths[..i][j];
    }
  }

  lemma FoundAreFound(tree: Json, paths: seq<string>)
    ensures AllFound(tree, FoundPaths(tree, paths))
  {
  }

  lemma TailsOfAll(found: set<Keys>)
    ensures Tails(found, []) == found
  {
    forall p | p in found ensures p in Tails(found, []) { assert [] <= p && p[0..] == p; }
  }
}
