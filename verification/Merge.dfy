/** Merging an image's configuration into a user's copy (merge-config.py). */
module Merge {
  import opened Json

  predicate HasIdField(e: Json) { e.Obj? && "id" in e.fields }

  predicate ById(items: seq<Json>) { forall i :: 0 <= i < |items| ==> HasIdField(items[i]) }

  function IdOf(e: Json): Json
    requires HasIdField(e)
  {
    e.fields["id"]
  }

  /** The last of the first n entries with an id: the one that a dict built from the list keeps. */
  function LastWithId(items: seq<Json>, id: Json, n: nat): (r: Option<nat>)
    requires ById(items) && n <= |items|
    ensures r.Some? ==> r.value < n && IdOf(items[r.value]) == id && forall j :: r.value < j < n ==> IdOf(items[j]) != id
    ensures r.None? ==> forall j :: 0 <= j < n ==> IdOf(items[j]) != id
  {
    if n == 0 then None
    else if IdOf(items[n - 1]) == id then Some(n - 1)
    else LastWithId(items, id, n - 1)
  }

  predicate HasId(items: seq<Json>, id: Json)
    requires ById(items)
  {
    exists i :: 0 <= i < |items| && IdOf(items[i]) == id
  }

  /** Those of the first n base entries whose id the target does not have, in base order. */
  function NewEntries(base: seq<Json>, target: seq<Json>, n: nat): (r: seq<Json>)
    requires ById(base) && ById(target) && n <= |base|
    ensures forall e :: e in r <==> exists j :: 0 <= j < n && base[j] == e && !HasId(target, IdOf(base[j]))
  {
    if n == 0 then []
    else NewEntries(base, target, n - 1) + if HasId(target, IdOf(base[n - 1])) then [] else [base[n - 1]]
  }

  function Merged(b: Json, t: Json): Json
    decreases b
  {
    if b.Obj? && t.Obj? then
      Obj(map k | k in b.fields.Keys + t.fields.Keys ::
            if k !in b.fields then t.fields[k]
            else if k in t.fields then Merged(b.fields[k], t.fields[k])
            else b.fields[k])
    else if b.Arr? && t.Arr? && ById(b.items) && ById(t.items) then
      Arr(seq(|t.items|, i requires 0 <= i < |t.items| =>
            var j := LastWithId(b.items, IdOf(t.items[i]), |b.items|);
            if j.Some? then Merged(b.items[j.value], t.items[i]) else t.items[i])
          + NewEntries(b.items, t.items, |b.items|))
    else b
  }

  /** The merge with its loops; members of an object are visited in any order. */
  method DeepMerge(base: Json, target: Json) returns (r: Json)
    ensures r == Merged(base, target)
    decreases base
  {
    if base.Obj? && target.Obj? {
      var out := target.fields;
      var names := base.fields.Keys;
      while names != {}
        invariant names <= base.fields.Keys
        invariant out.Keys == target.fields.Keys + (base.fields.Keys - names)
        invariant forall k :: k in out ==>
                    out[k] == (if k !in base.fields || k in names then target.fields[k]
                               else if k in target.fields then Merged(base.fields[k], target.fields[k])
                               else base.fields[k])
      {
        var k :| k in names;
        if k in target.fields {
          var v := DeepMerge(base.fields[k], target.fields[k]);
          out := out[k := v];
        } else {
          out := out[k := base.fields[k]];
        }
        names := names - {k};
      }
      assert out == Merged(base, target).fields;
      return Obj(out);
    }
    if base.Arr? && target.Arr? {
      if ById(base.items) && ById(target.items) {
        var out := MergeEntries(base, target);
        return Arr(out);
      }
      return base;
    }
    return base;
  }

  method MergeEntries(base: Json, target: Json) returns (out: seq<Json>)
    requires base.Arr? && target.Arr? && ById(base.items) && ById(target.items)
    ensures Arr(out) == Merged(base, target)
    decreases base, 0
  {
    var baseById := IndexById(base.items);
    out := [];
    var targetIds: set<Json> := {};
    for i := 0 to |target.items|
      invariant |out| == i && forall k :: 0 <= k < i ==> out[k] == Merged(base, target).items[k]
      invariant targetIds == IdsOf(target.items[..i])
    {
      var t := target.items[i];
      assert target.items[..i + 1] == target.items[..i] + [t];
      targetIds := targetIds + {IdOf(t)};
      var v := t;
      if IdOf(t) in baseById {
        v := DeepMerge(baseById[IdOf(t)], t);
      }
      out := out + [v];
    }
    assert target.items[..|target.items|] == target.items;
    var added := AppendNew(base.items, target.items, targetIds);
    out := out + added;
  }

  function IdsOf(items: seq<Json>): set<Json>
    requires ById(items)
  {
    set i | 0 <= i < |items| :: IdOf(items[i])
  }

  /** The dict from ids to entries: a later entry replaces an earlier one. */
  method IndexById(items: seq<Json>) returns (byId: map<Json, Json>)
    requires ById(items)
    ensures forall id :: id in byId <==> LastWithId(items, id, |items|).Some?
    ensures forall id :: id in byId ==> byId[id] == items[LastWithId(items, id, |items|).value]
  {
    byId := map[];
    for k := 0 to |items|
      invariant forall id :: id in byId <==> LastWithId(items, id, k).Some?
      invariant forall id :: id in byId ==> byId[id] == items[LastWithId(items, id, k).value]
    {
      byId := byId[IdOf(items[k]) := items[k]];
    }
  }

  method AppendNew(base: seq<Json>, target: seq<Json>, targetIds: set<Json>) returns (added: seq<Json>)
    requires ById(base) && ById(target) && targetIds == IdsOf(target)
    ensures added == NewEntries(base, target, |base|)
  {
    added := [];
    for k := 0 to |base|
      invariant added == NewEntries(base, target, k)
    {
      assert IdOf(base[k]) in targetIds <==> HasId(target, IdOf(base[k]));
      if IdOf(base[k]) !in targetIds {
        added := added + [base[k]];
      }
    }
  }

  // --------------------------------------------------------- lists, entry by entry

  lemma {:induction false} NewEntriesKeepTheirOrder(base: seq<Json>, target: seq<Json>, n: nat, j: nat)
    requires ById(base) && ById(target) && j < n <= |base| && !HasId(target, IdOf(base[j]))
    ensures |NewEntries(base, target, j)| < |NewEntries(base, target, n)|
    ensures NewEntries(base, target, n)[|NewEntries(base, target, j)|] == base[j]
    decreases n
  {
    if j < n - 1 { NewEntriesKeepTheirOrder(base, target, n - 1, j); }
  }

  /** How the two parts of a merged list lie. */
  lemma PartsOfMergedList(b: Json, t: Json)
    requires b.Arr? && t.Arr? && ById(b.items) && ById(t.items)
    ensures var m := Merged(b, t);
            && m.Arr? && |m.items| == |t.items| + |NewEntries(b.items, t.items, |b.items|)|
            && m.items[|t.items|..] == NewEntries(b.items, t.items, |b.items|)
            && (forall i :: 0 <= i < |t.items| ==>
                  var j := LastWithId(b.items, IdOf(t.items[i]), |b.items|);
                  m.items[i] == if j.Some? then Merged(b.items[j.value], t.items[i]) else t.items[i])
  {
  }

  /** Target entries stay in their places, each merged with the base entry of its id. */
  lemma TargetEntriesStayInPlace(b: Json, t: Json, i: nat)
    requires b.Arr? && t.Arr? && ById(b.items) && ById(t.items) && i < |t.items|
    requires forall i, j :: 0 <= i < j < |b.items| ==> IdOf(b.items[i]) != IdOf(b.items[j])
    ensures Merged(b, t).Arr? && i < |Merged(b, t).items|
    ensures forall j :: 0 <= j < |b.items| && IdOf(b.items[j]) == IdOf(t.items[i]) ==>
              Merged(b, t).items[i] == Merged(b.items[j], t.items[i])
    ensures !HasId(b.items, IdOf(t.items[i])) ==> Merged(b, t).items[i] == t.items[i]
  {
    PartsOfMergedList(b, t);
    hide Merged;
    var last := LastWithId(b.items, IdOf(t.items[i]), |b.items|);
    if last.Some? { assert IdOf(b.items[last.value]) == IdOf(t.items[i]); }
  }

  /** Base entries with new ids follow in base order, and nothing else does. */
  lemma NewEntriesFollowInOrder(b: Json, t: Json, j: nat)
    requires b.Arr? && t.Arr? && ById(b.items) && ById(t.items) && j < |b.items|
    ensures Merged(b, t).Arr? && |Merged(b, t).items| == |t.items| + |NewEntries(b.items, t.items, |b.items|)|
    ensures !HasId(t.items, IdOf(b.items[j])) ==>
              var k := |t.items| + |NewEntries(b.items, t.items, j)|;
              k < |Merged(b, t).items| && Merged(b, t).items[k] == b.items[j]
  {
    PartsOfMergedList(b, t);
    hide Merged;
    if !HasId(t.items, IdOf(b.items[j])) {
      NewEntriesKeepTheirOrder(b.items, t.items, |b.items|, j);
      var k := |NewEntries(b.items, t.items, j)|;
      assert Merged(b, t).items[|t.items| + k] == NewEntries(b.items, t.items, |b.items|)[k];
    }
  }

  // ----------------------------------------------------- when nothing is left to do

  /** The target already has everything the base brings. */
  ghost predicate Included(b: Json, t: Json)
    decreases b
  {
    if b.Obj? && t.Obj? then
      forall k :: k in b.fields ==> k in t.fields && Included(b.fields[k], t.fields[k])
    else if b.Arr? && t.Arr? && ById(b.items) && ById(t.items) then
      && (forall i :: 0 <= i < |t.items| ==>
            var j := LastWithId(b.items, IdOf(t.items[i]), |b.items|);
            j.Some? ==> Included(b.items[j.value], t.items[i]))
      && (forall j :: 0 <= j < |b.items| ==> HasId(t.items, IdOf(b.items[j])))
    else b == t
  }

  /** A merge changes nothing exactly when the target includes the base. */
  lemma {:induction false} UnchangedExactlyWhenIncluded(b: Json, t: Json)
    ensures Merged(b, t) == t <==> Included(b, t)
    decreases b
  {
    if b.Obj? && t.Obj? {
      forall k | k in b.fields && k in t.fields
        ensures Merged(b.fields[k], t.fields[k]) == t.fields[k] <==> Included(b.fields[k], t.fields[k])
      {
        UnchangedExactlyWhenIncluded(b.fields[k], t.fields[k]);
      }
      var m := Merged(b, t).fields;
      if m == t.fields {
        forall k | k in b.fields ensures k in t.fields && m[k] == t.fields[k] { assert k in m; }
      }
      if Included(b, t) { assert m == t.fields; }
    } else if b.Arr? && t.Arr? && ById(b.items) && ById(t.items) {
      EntriesUnchangedExactlyWhenIncluded(b, t);
    }
  }

  lemma {:induction false} EntriesUnchangedExactlyWhenIncluded(b: Json, t: Json)
    requires b.Arr? && t.Arr? && ById(b.items) && ById(t.items)
    ensures Merged(b, t) == t <==> Included(b, t)
    decreases b, 0
  {
    var m, added := Merged(b, t).items, NewEntries(b.items, t.items, |b.items|);
    assert m[|t.items|..] == added;
    forall i | 0 <= i < |t.items|
      ensures var j := LastWithId(b.items, IdOf(t.items[i]), |b.items|);
              m[i] == t.items[i] <==> j.None? || Included(b.items[j.value], t.items[i])
    {
      var j := LastWithId(b.items, IdOf(t.items[i]), |b.items|);
      if j.Some? { UnchangedExactlyWhenIncluded(b.items[j.value], t.items[i]); }
    }
    assert forall j :: 0 <= j < |b.items| && !HasId(t.items, IdOf(b.items[j])) ==> b.items[j] in added;
    assert added == [] || added[0] in added;
    if Included(b, t) { assert m == t.items; }
  }

  /** Merging entries with one id keeps the id, when the base entry is settled. */
  lemma EntryKeepsId(b: Json, t: Json)
    requires HasIdField(b) && HasIdField(t) && IdOf(b) == IdOf(t) && Included(b, b)
    ensures HasIdField(Merged(b, t)) && IdOf(Merged(b, t)) == IdOf(t)
  {
    UnchangedExactlyWhenIncluded(IdOf(b), IdOf(b));
  }

  /** A settled base is included in every merge result. */
  lemma {:induction false} MergeIncludesBase(b: Json, t: Json)
    requires Included(b, b)
    ensures Included(b, Merged(b, t))
    decreases b
  {
    if b.Obj? && t.Obj? {
      var m := Merged(b, t).fields;
      forall k | k in b.fields ensures k in m && Included(b.fields[k], m[k]) {
        if k in t.fields { MergeIncludesBase(b.fields[k], t.fields[k]); }
      }
    } else if b.Arr? && t.Arr? && ById(b.items) && ById(t.items) {
      MergedEntriesIncludeBase(b, t);
    }
  }

  lemma {:induction false} MergedEntriesIncludeBase(b: Json, t: Json)
    requires b.Arr? && t.Arr? && ById(b.items) && ById(t.items) && Included(b, b)
    ensures Included(b, Merged(b, t))
    decreases b, 0
  {
    var m, n := Merged(b, t).items, |t.items|;
    forall i | 0 <= i < |m|
      ensures HasIdField(m[i])
      ensures i < n ==> IdOf(m[i]) == IdOf(t.items[i])
      ensures var j := LastWithId(b.items, IdOf(m[i]), |b.items|); j.Some? ==> Included(b.items[j.value], m[i])
    {
      if i < n {
        var j := LastWithId(b.items, IdOf(t.items[i]), |b.items|);
        if j.Some? {
          LastIsSettled(b, j.value);
          EntryKeepsId(b.items[j.value], t.items[i]);
          MergeIncludesBase(b.items[j.value], t.items[i]);
        }
      } else {
        assert m[i] in NewEntries(b.items, t.items, |b.items|);
      }
    }
    forall j | 0 <= j < |b.items| ensures HasId(m, IdOf(b.items[j])) {
      if HasId(t.items, IdOf(b.items[j])) {
        var i :| 0 <= i < n && IdOf(t.items[i]) == IdOf(b.items[j]);
        assert IdOf(m[i]) == IdOf(b.items[j]);
      } else {
        assert b.items[j] in NewEntries(b.items, t.items, |b.items|);
        assert b.items[j] in m;
      }
    }
  }

  lemma LastIsSettled(b: Json, j: nat)
    requires b.Arr? && ById(b.items) && Included(b, b) && j < |b.items|
    requires LastWithId(b.items, IdOf(b.items[j]), |b.items|) == Some(j)
    ensures Included(b.items[j], b.items[j])
  {
  }

  /** Merging again never changes the result, for any target, exactly when the base includes itself. */
  lemma IdempotentExactlyWhenSettled(b: Json)
    ensures (forall t :: Merged(b, Merged(b, t)) == Merged(b, t)) <==> Included(b, b)
  {
    UnchangedExactlyWhenIncluded(b, b);
    if Included(b, b) {
      forall t ensures Merged(b, Merged(b, t)) == Merged(b, t) {
        MergeIncludesBase(b, t);
        UnchangedExactlyWhenIncluded(b, Merged(b, t));
      }
    } else {
      assert Merged(b, Null) == b;
      assert Merged(b, Merged(b, Null)) != Merged(b, Null);
    }
  }

  /** An id that can key a dict. */
  predicate Scalar(v: Json) { !v.Obj? && !v.Arr? }

  /** No list of entries repeats an id, at any depth. */
  ghost predicate DistinctIds(v: Json) {
    match v
    case Obj(m) => forall k :: k in m ==> DistinctIds(m[k])
    case Arr(items) =>
      && (forall i :: 0 <= i < |items| ==> DistinctIds(items[i]))
      && (ById(items) ==> forall i :: 0 <= i < |items| ==> Scalar(IdOf(items[i])))
      && (ById(items) ==> forall i, j :: 0 <= i < j < |items| ==> IdOf(items[i]) != IdOf(items[j]))
    case _ => true
  }

  lemma {:induction false} DistinctIdsAreSettled(v: Json)
    requires DistinctIds(v)
    ensures Included(v, v) && Merged(v, v) == v
    decreases v
  {
    UnchangedExactlyWhenIncluded(v, v);
    match v {
      case Obj(m) => forall k | k in m ensures Included(m[k], m[k]) { DistinctIdsAreSettled(m[k]); }
      case Arr(items) =>
        if ById(items) {
          forall i | 0 <= i < |items| ensures Included(items[i], items[i]) { DistinctIdsAreSettled(items[i]); }
          hide DistinctIds;
          SettledEntries(v);
        }
      case _ =>
    }
  }

  /** With distinct ids, a list of settled entries is settled. */
  lemma SettledEntries(v: Json)
    requires v.Arr? && ById(v.items) && forall i :: 0 <= i < |v.items| ==> Included(v.items[i], v.items[i])
    requires forall i, j :: 0 <= i < j < |v.items| ==> IdOf(v.items[i]) != IdOf(v.items[j])
    ensures Included(v, v)
  {
    var items := v.items;
    forall i | 0 <= i < |items|
      ensures HasId(items, IdOf(items[i])) && LastWithId(items, IdOf(items[i]), |items|) == Some(i)
    {
      var last := LastWithId(items, IdOf(items[i]), |items|);
      assert last.Some? && i <= last.value;
    }
  }

  /** Repeated ids do break it: the second of two entries overwrites the first on the next run. */
  lemma RepeatedIdsBreakIt()
    ensures var b := Arr([Obj(map["id" := Num(1), "a" := Num(1)]), Obj(map["id" := Num(1), "a" := Num(2)])]);
            Merged(b, Merged(b, Null)) != Merged(b, Null)
  {
    var first, second := Obj(map["id" := Num(1), "a" := Num(1)]), Obj(map["id" := Num(1), "a" := Num(2)]);
    var b := Arr([first, second]);
    assert b.items[0] == first && b.items[1] == second && ById(b.items);
    assert LastWithId(b.items, Num(1), 2) == Some(1);
    assert Merged(b, b).items[0] == Merged(second, first);
    assert Merged(second, first).fields["a"] == Merged(Num(2), Num(1)) == Num(2);
  }

  // ------------------------------------------------------------- the UNSET guard

  function DropUnset(v: Json): Json {
    match v
    case Obj(m) => Obj(map k | k in m && m[k] != Str("UNSET") :: DropUnset(m[k]))
    case Arr(items) => Arr(seq(|items|, i requires 0 <= i < |items| => DropUnset(items[i])))
    case _ => v
  }

  /** No member of any object carries the marker. */
  ghost predicate NoMarker(v: Json) {
    match v
    case Obj(m) => forall k :: k in m ==> m[k] != Str("UNSET") && NoMarker(m[k])
    case Arr(items) => forall i :: 0 <= i < |items| ==> NoMarker(items[i])
    case _ => true
  }

  /** Dropping leaves no marker, and changes a value only when it has one. */
  lemma {:induction false} DropsExactlyTheMarkers(v: Json)
    ensures NoMarker(DropUnset(v)) && (DropUnset(v) == v <==> NoMarker(v))
    decreases v
  {
    match v {
      case Obj(m) =>
        var d := DropUnset(v).fields;
        forall k | k in m ensures NoMarker(DropUnset(m[k])) && (DropUnset(m[k]) == m[k] <==> NoMarker(m[k])) { DropsExactlyTheMarkers(m[k]); }
        if d == m { assert forall k :: k in m ==> k in d; }
        if NoMarker(v) { assert d == m; }
      case Arr(items) =>
        forall i | 0 <= i < |items| ensures NoMarker(DropUnset(items[i])) && (DropUnset(items[i]) == items[i] <==> NoMarker(items[i])) {
          DropsExactlyTheMarkers(items[i]);
        }
        var d := DropUnset(v).items;
        if d == items { assert forall i :: 0 <= i < |items| ==> d[i] == items[i]; }
        if NoMarker(v) { assert d == items; }
      case _ =>
    }
  }

  /** Merging brings no marker into a target without one. */
  lemma {:induction false} MergeBringsNoMarker(b: Json, t: Json)
    requires NoMarker(b) && NoMarker(t) && b != Str("UNSET")
    ensures NoMarker(Merged(b, t)) && Merged(b, t) != Str("UNSET")
    decreases b
  {
    if b.Obj? && t.Obj? {
      forall k | k in b.fields && k in t.fields
        ensures NoMarker(Merged(b.fields[k], t.fields[k])) && Merged(b.fields[k], t.fields[k]) != Str("UNSET")
      {
        MergeBringsNoMarker(b.fields[k], t.fields[k]);
      }
    } else if b.Arr? && t.Arr? && ById(b.items) && ById(t.items) {
      var m := Merged(b, t).items;
      forall i | 0 <= i < |m| ensures NoMarker(m[i]) {
        if i < |t.items| {
          var j := LastWithId(b.items, IdOf(t.items[i]), |b.items|);
          if j.Some? { MergeBringsNoMarker(b.items[j.value], t.items[i]); }
        } else {
          assert m[i] in NewEntries(b.items, t.items, |b.items|);
        }
      }
    }
  }

  lemma {:induction false} DroppingKeepsIdsDistinct(v: Json)
    requires DistinctIds(v)
    ensures DistinctIds(DropUnset(v))
    decreases v
  {
    match v {
      case Obj(m) => forall k | k in m ensures DistinctIds(DropUnset(m[k])) { DroppingKeepsIdsDistinct(m[k]); }
      case Arr(items) =>
        var d := DropUnset(v).items;
        forall i | 0 <= i < |items|
          ensures DistinctIds(d[i]) && (HasIdField(d[i]) ==> HasIdField(items[i]) && IdOf(d[i]) == DropUnset(IdOf(items[i])))
        {
          DroppingKeepsIdsDistinct(items[i]);
        }
        if ById(d) {
          assert ById(items);
          forall i | 0 <= i < |items| ensures IdOf(d[i]) == IdOf(items[i]) { assert Scalar(IdOf(items[i])); }
        }
      case _ =>
    }
  }
}
