/** The allowlist of paths, and what a boot's merge does to every path (merge-config.py). */
module Allowlist {
  import opened Json
  import opened Merge
  import opened Pointer

  type Keys = seq<string>

  /** A walk through objects by literal keys. */
  function GetPath(v: Json, path: Keys): Option<Json> {
    if path == [] then Some(v)
    else if v.Obj? && path[0] in v.fields then GetPath(v.fields[path[0]], path[1..])
    else None
  }

  function Below(paths: set<Keys>, k: string): set<Keys> {
    set p | p in paths && p != [] && p[0] == k :: p[1..]
  }

  /** The part of a tree that lies on or under the given paths. */
  function Trim(v: Json, paths: set<Keys>): Json
    decreases v
  {
    if [] in paths || !v.Obj? then v
    else Obj(map k | k in v.fields && Below(paths, k) != {} :: Trim(v.fields[k], Below(paths, k)))
  }

  function Segments(dotted: string): Keys { Split(dotted, '.') }

  /** A dotted path names its keys, one for each piece between dots, and every dotted path is of this form. */
  lemma DottedPathsNameTheirKeys(keys: Keys, dotted: string)
    requires keys != [] && forall k :: k in keys ==> '.' !in k
    ensures Segments(Join(keys, '.')) == keys
    ensures Join(Segments(dotted), '.') == dotted && forall k :: k in Segments(dotted) ==> '.' !in k
  {
    SplitUndoesJoin(keys, '.');
    JoinUndoesSplit(dotted, '.');
  }

  /** The listed paths that the base has. */
  function FoundPaths(base: Json, listed: seq<string>): set<Keys> {
    set i | 0 <= i < |listed| && GetPath(base, Segments(listed[i])).Some? :: Segments(listed[i])
  }

  /** The base cut down to the allowlist; order and repetition in the list play no part. */
  function Restrict(base: Json, listed: seq<string>): Json {
    if base.Obj? then Trim(base, FoundPaths(base, listed)) else Obj(map[])
  }

  /** What is written to the target: `listed` is None when the whole base merges. */
  function Boot(base: Json, listed: Option<seq<string>>, target: Json): Json {
    Merged(DropUnset(Brought(base, listed)), target)
  }

  // ------------------------------------------------------- reading a trimmed tree

  ghost predicate AllFound(v: Json, paths: set<Keys>) { forall p :: p in paths ==> GetPath(v, p).Some? }

  ghost predicate Covered(paths: set<Keys>, q: Keys) { exists p :: p in paths && p <= q }

  ghost predicate Leads(paths: set<Keys>, q: Keys) { exists p :: p in paths && q <= p }

  lemma BelowFollows(v: Json, paths: set<Keys>, q: Keys)
    requires q != [] && [] !in paths
    ensures Covered(paths, q) <==> Covered(Below(paths, q[0]), q[1..])
    ensures Leads(paths, q) <==> Leads(Below(paths, q[0]), q[1..])
    ensures AllFound(v, paths) && v.Obj? && q[0] in v.fields ==> AllFound(v.fields[q[0]], Below(paths, q[0]))
  {
    var below := Below(paths, q[0]);
    if Covered(paths, q) {
      var p :| p in paths && p <= q;
      assert p[1..] in below && p[1..] <= q[1..];
    }
    if Covered(below, q[1..]) {
      var r :| r in below && r <= q[1..];
      var p :| p in paths && p != [] && p[0] == q[0] && p[1..] == r;
      assert p <= q;
    }
    if Leads(paths, q) {
      var p :| p in paths && q <= p;
      assert p[1..] in below && q[1..] <= p[1..];
    }
    if Leads(below, q[1..]) {
      var r :| r in below && q[1..] <= r;
      var p :| p in paths && p != [] && p[0] == q[0] && p[1..] == r;
      assert q <= p;
    }
  }

  /** Walking stops at an object without the next key, not at some other value. */
  predicate StopsInObject(v: Json, q: Keys) {
    q != [] && v.Obj? && (q[0] in v.fields ==> StopsInObject(v.fields[q[0]], q[1..]))
  }

  /** A trimmed tree reads as the tree on and under the paths, is there above them, and ends in an object elsewhere. */
  lemma {:induction false} TrimmedReads(v: Json, paths: set<Keys>, q: Keys)
    requires AllFound(v, paths) && (v.Obj? || [] in paths)
    ensures Covered(paths, q) ==> GetPath(Trim(v, paths), q) == GetPath(v, q)
    ensures !Covered(paths, q) && (Leads(paths, q) || q == []) ==>
              GetPath(Trim(v, paths), q).Some? && GetPath(Trim(v, paths), q).value.Obj?
    ensures !Covered(paths, q) && !Leads(paths, q) && q != [] ==> StopsInObject(Trim(v, paths), q)
    decreases |q|
  {
    if [] in paths {
      assert [] <= q;
    } else if q != [] {
      var k, below := q[0], Below(paths, q[0]);
      BelowFollows(v, paths, q);
      if below != {} {
        var r :| r in below;
        var p :| p in paths && p != [] && p[0] == k && p[1..] == r;
        assert GetPath(v, p).Some?;
        assert k in v.fields && GetPath(v.fields[k], r).Some?;
        assert v.fields[k].Obj? || r == [];
        TrimmedReads(v.fields[k], below, q[1..]);
        if q[1..] == [] { assert [] <= r; }
      }
    }
  }

  /** Every listed path that the base has reads the same in the restricted tree. */
  lemma ListedPathsReadTheSame(base: Json, listed: seq<string>, i: nat)
    requires base.Obj? && i < |listed| && GetPath(base, Segments(listed[i])).Some?
    ensures GetPath(Restrict(base, listed), Segments(listed[i])) == GetPath(base, Segments(listed[i]))
  {
    var p := Segments(listed[i]);
    assert p in FoundPaths(base, listed) && p <= p;
    TrimmedReads(base, FoundPaths(base, listed), p);
  }

  // -------------------------------------------------------- reading a merged tree

  /** Reading any path of a merge: the base wins where it has the path, and is silent where it stops in an object. */
  lemma {:induction false} MergedReads(b: Json, t: Json, q: Keys)
    ensures var own, theirs := GetPath(b, q), GetPath(t, q);
            GetPath(Merged(b, t), q) ==
              if own.Some? then Some(if theirs.Some? then Merged(own.value, theirs.value) else own.value)
              else if StopsInObject(b, q) then theirs
              else None
    decreases |q|
  {
    if q != [] && b.Obj? {
      if t.Obj? {
        if q[0] in b.fields && q[0] in t.fields { MergedReads(b.fields[q[0]], t.fields[q[0]], q[1..]); }
      }
      if q[0] in b.fields { ReadsStopOnce(b.fields[q[0]], q[1..]); }
    }
  }

  lemma {:induction false} ReadsStopOnce(v: Json, q: Keys)
    ensures StopsInObject(v, q) ==> GetPath(v, q).None?
    decreases |q|
  {
    if q != [] && v.Obj? && q[0] in v.fields { ReadsStopOnce(v.fields[q[0]], q[1..]); }
  }

  lemma {:induction false} DroppedReads(v: Json, q: Keys)
    ensures StopsInObject(v, q) ==> StopsInObject(DropUnset(v), q)
    ensures q != [] && GetPath(v, q) == Some(Str("UNSET")) ==> StopsInObject(DropUnset(v), q)
    ensures GetPath(v, q).Some? && GetPath(v, q) != Some(Str("UNSET")) ==> GetPath(DropUnset(v), q) == Some(DropUnset(GetPath(v, q).value))
    decreases |q|
  {
    if q != [] && v.Obj? && q[0] in v.fields {
      DroppedReads(v.fields[q[0]], q[1..]);
      if v.fields[q[0]] == Str("UNSET") && q[1..] != [] { assert GetPath(v.fields[q[0]], q[1..]).None?; }
    }
  }

  // -------------------------------------------------------------------- results

  /** A path that neither extends nor leads to a found listed path reads exactly as in the target. */
  lemma UnlistedPathsAreUntouched(base: Json, listed: seq<string>, target: Json, q: Keys)
    requires q != []
    requires forall i :: 0 <= i < |listed| && base.Obj? && GetPath(base, Segments(listed[i])).Some? ==>
               !(Segments(listed[i]) <= q) && !(q <= Segments(listed[i]))
    ensures GetPath(Boot(base, Some(listed), target), q) == GetPath(target, q)
  {
    var r := Restrict(base, listed);
    if base.Obj? { TrimmedReads(base, FoundPaths(base, listed), q); }
    assert StopsInObject(r, q);
    DroppedReads(r, q);
    ReadsStopOnce(DropUnset(r), q);
    MergedReads(DropUnset(r), target, q);
  }

  /** A found listed path gets the base's value merged in, unless that value is the marker, which changes nothing. */
  lemma ListedPathsAreMerged(base: Json, listed: seq<string>, target: Json, i: nat)
    requires base.Obj? && i < |listed| && GetPath(base, Segments(listed[i])).Some?
    ensures var p := Segments(listed[i]);
            var own, theirs := GetPath(base, p).value, GetPath(target, p);
            GetPath(Boot(base, Some(listed), target), p) ==
              if own == Str("UNSET") then theirs
              else Some(if theirs.Some? then Merged(DropUnset(own), theirs.value) else DropUnset(own))
  {
    var p, r := Segments(listed[i]), Restrict(base, listed);
    ListedPathsReadTheSame(base, listed, i);
    DroppedReads(r, p);
    ReadsStopOnce(DropUnset(r), p);
    MergedReads(DropUnset(r), target, p);
  }

  lemma {:induction false} TrimmingKeepsIdsDistinct(v: Json, paths: set<Keys>)
    requires DistinctIds(v)
    ensures DistinctIds(Trim(v, paths))
    decreases v
  {
    if v.Obj? && [] !in paths {
      forall k | k in v.fields ensures DistinctIds(Trim(v.fields[k], Below(paths, k))) {
        TrimmingKeepsIdsDistinct(v.fields[k], Below(paths, k));
      }
    }
  }

  function Brought(base: Json, listed: Option<seq<string>>): Json {
    if listed.Some? then Restrict(base, listed.value) else base
  }

  lemma BroughtIdsAreDistinct(base: Json, listed: Option<seq<string>>)
    requires DistinctIds(base)
    ensures DistinctIds(Brought(base, listed))
  {
    hide Trim, FoundPaths;
    if listed.Some? && base.Obj? { TrimmingKeepsIdsDistinct(base, FoundPaths(base, listed.value)); }
  }

  /** Booting twice with an image whose lists do not repeat ids changes the file at most once. */
  lemma RepeatedBootsChangeNothing(base: Json, listed: Option<seq<string>>, target: Json)
    requires DistinctIds(base)
    ensures Boot(base, listed, Boot(base, listed, target)) == Boot(base, listed, target)
  {
    hide DropUnset, Merged, Included, DistinctIds, Brought;
    var brought := DropUnset(Brought(base, listed));
    BroughtIdsAreDistinct(base, listed);
    DroppingKeepsIdsDistinct(Brought(base, listed));
    DistinctIdsAreSettled(brought);
    IdempotentExactlyWhenSettled(brought);
    assert Merged(brought, Merged(brought, target)) == Merged(brought, target);
  }

  /** An allowlist that finds nothing leaves the target alone exactly when the target is an object. */
  lemma NothingFoundIsANoOpOnObjectsOnly(base: Json, listed: seq<string>, target: Json)
    requires base.Obj? ==> FoundPaths(base, listed) == {}
    ensures Boot(base, Some(listed), target) == target <==> target.Obj?
  {
    assert Restrict(base, listed) == Obj(map[]);
    assert DropUnset(Obj(map[])) == Obj(map[]);
    if target.Obj? { assert Merged(Obj(map[]), target).fields == target.fields; }
  }
}
