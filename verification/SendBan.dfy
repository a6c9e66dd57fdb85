/** The send-ban registry, which outlives every provider (sendBan.ts). */
module SendBan {
  import opened Json

  const NUL: char := '\0'

  datatype BanKey = BanKey(endpointBase: string, contextId: string)

  function KeyOf(endpointBase: string, contextId: string): string {
    endpointBase + [NUL] + contextId
  }

  /** The context key of a ban inside the scope of one bot (policy.ts); an empty scope is no scope. */
  function ScopedContext(scope: Option<string>, contextId: string): string {
    if OrElse(scope, "") != "" then scope.value + " " + contextId else contextId
  }

  lemma SplitAt(a: string, x: string, b: string, y: string, c: char)
    requires a + [c] + x == b + [c] + y && |a| <= |b|
    ensures (a == b && x == y) || c in b
  {
    var left := a + [c] + x;
    var right := b + [c] + y;
    if |a| == |b| {
      assert a == left[..|a|] == right[..|a|] == b;
      assert x == left[|a| + 1..] == right[|a| + 1..] == y;
    } else {
      assert left[|a|] == c == right[|a|] == b[|a|];
    }
  }

  /** Two entries share a string key only when they are the same pair, unless an endpoint contains NUL. */
  lemma KeysAreInjective(a: BanKey, b: BanKey)
    requires KeyOf(a.endpointBase, a.contextId) == KeyOf(b.endpointBase, b.contextId)
    ensures a == b || NUL in a.endpointBase || NUL in b.endpointBase
  {
    if |a.endpointBase| <= |b.endpointBase| {
      SplitAt(a.endpointBase, a.contextId, b.endpointBase, b.contextId, NUL);
    } else {
      SplitAt(b.endpointBase, b.contextId, a.endpointBase, a.contextId, NUL);
    }
  }

  /** Over a set of endpoints the keys tell all pairs apart. */
  ghost predicate KeysTellApart(endpoints: set<string>) {
    forall a: BanKey, b: BanKey ::
      (a.endpointBase in endpoints && b.endpointBase in endpoints
       && KeyOf(a.endpointBase, a.contextId) == KeyOf(b.endpointBase, b.contextId))
      ==> a == b
  }

  /** They do exactly when no endpoint followed by NUL begins another endpoint. */
  lemma KeysTellApartExactly(endpoints: set<string>)
    ensures KeysTellApart(endpoints) <==> forall e, f :: e in endpoints && f in endpoints ==> !(e + [NUL] <= f)
  {
    if e, f :| e in endpoints && f in endpoints && e + [NUL] <= f {
      var rest := f[|e| + 1..];
      var a, b := BanKey(e, rest + [NUL]), BanKey(f, "");
      assert f == e + [NUL] + rest;
      assert KeyOf(a.endpointBase, a.contextId) == KeyOf(b.endpointBase, b.contextId);
    } else {
      forall a: BanKey, b: BanKey | a.endpointBase in endpoints && b.endpointBase in endpoints
        && KeyOf(a.endpointBase, a.contextId) == KeyOf(b.endpointBase, b.contextId)
        ensures a == b
      {
        if |a.endpointBase| <= |b.endpointBase| { SharedKeyIsAPrefix(a, b); } else { SharedKeyIsAPrefix(b, a); }
      }
    }
  }

  lemma SharedKeyIsAPrefix(a: BanKey, b: BanKey)
    requires KeyOf(a.endpointBase, a.contextId) == KeyOf(b.endpointBase, b.contextId) && |a.endpointBase| <= |b.endpointBase|
    ensures a == b || a.endpointBase + [NUL] <= b.endpointBase
  {
    var key, e, f := KeyOf(a.endpointBase, a.contextId), a.endpointBase, b.endpointBase;
    assert key == KeyOf(f, b.contextId);
    assert key[..|e|] == e && key[|e|] == NUL && key[|e| + 1..] == a.contextId;
    assert key[..|f|] == f && key[|f| + 1..] == b.contextId;
    if |e| < |f| {
      assert f[..|e| + 1] == key[..|e| + 1] == e + [NUL];
    } else {
      assert e == f && a.contextId == b.contextId;
    }
  }

  /** With a NUL in an endpoint two different pairs do share a key. */
  lemma NulBreaksInjectivity()
    ensures var a, b := BanKey("x\0y", "z"), BanKey("x", "y\0z");
            a != b && KeyOf(a.endpointBase, a.contextId) == KeyOf(b.endpointBase, b.contextId)
  {
    assert KeyOf("x\0y", "z") == KeyOf("x", "y\0z");
  }

  /** Scopes without a space keep the contexts of different bots apart. */
  lemma ScopesAreDisjoint(s1: string, c1: string, s2: string, c2: string)
    requires s1 != "" && s2 != "" && ' ' !in s1 && ' ' !in s2
    ensures ScopedContext(Some(s1), c1) == ScopedContext(Some(s2), c2) <==> s1 == s2 && c1 == c2
  {
    if ScopedContext(Some(s1), c1) == ScopedContext(Some(s2), c2) {
      if |s1| <= |s2| { SplitAt(s1, c1, s2, c2, ' '); } else { SplitAt(s2, c2, s1, c1, ' '); }
    }
  }

  class SendBanRegistry {
    var banned: map<string, BanKey>

    /** Every record sits under its own key. */
    ghost predicate Valid() reads this {
      forall k :: k in banned ==> k == KeyOf(banned[k].endpointBase, banned[k].contextId)
    }

    ghost predicate NulFree() reads this {
      forall k :: k in banned ==> NUL !in banned[k].endpointBase
    }

    /** The set of pairs that the string-keyed map stands for. */
    ghost function Pairs(): set<BanKey> reads this { set k | k in banned :: banned[k] }

    constructor ()
      ensures Valid() && NulFree() && Pairs() == {}
    {
      banned := map[];
    }

    method Begin(endpointBase: string, contextId: string)
      requires Valid()
      modifies this
      ensures Valid()
      ensures var key := KeyOf(endpointBase, contextId);
              banned == if key in old(banned) then old(banned)
                        else old(banned)[key := BanKey(endpointBase, contextId)]
      ensures old(NulFree()) && NUL !in endpointBase ==>
                NulFree() && Pairs() == old(Pairs()) + {BanKey(endpointBase, contextId)}
    {
      var key := KeyOf(endpointBase, contextId);
      ghost var before := banned;
      if key !in banned {
        banned := banned[key := BanKey(endpointBase, contextId)];
        assert banned[key] == BanKey(endpointBase, contextId);
      } else if NUL !in endpointBase && NulFree() {
        KeysAreInjective(banned[key], BanKey(endpointBase, contextId));
      }
      assert forall k :: k in before ==> k in banned && banned[k] == before[k];
    }

    predicate IsBanned(endpointBase: string, contextId: string)
      requires Valid()
      reads this
      ensures BanKey(endpointBase, contextId) in Pairs() ==> IsBanned(endpointBase, contextId)
      ensures NulFree() && NUL !in endpointBase ==>
                (IsBanned(endpointBase, contextId) <==> BanKey(endpointBase, contextId) in Pairs())
    {
      var key := KeyOf(endpointBase, contextId);
      assert key in banned && NulFree() && NUL !in endpointBase ==> banned[key] == BanKey(endpointBase, contextId) by {
        if key in banned && NulFree() && NUL !in endpointBase {
          KeysAreInjective(banned[key], BanKey(endpointBase, contextId));
        }
      }
      key in banned
    }

    /** A context counts as banned when any endpoint has an open ban on it. */
    method IsContextBanned(contextId: string) returns (found: bool)
      ensures found <==> exists e :: BanKey(e, contextId) in Pairs()
    {
      var keys := banned.Keys;
      found := false;
      while keys != {}
        invariant keys <= banned.Keys
        invariant forall k :: k in banned && k !in keys ==> banned[k].contextId != contextId
        decreases |keys|
      {
        var k :| k in keys;
        if banned[k].contextId == contextId {
          assert BanKey(banned[k].endpointBase, contextId) in Pairs();
          return true;
        }
        keys := keys - {k};
      }
    }

    /** Both ways out of a ban delete exactly one key; which evidence may call them is the provider's business. */
    method Release(endpointBase: string, contextId: string)
      requires Valid()
      modifies this
      ensures Valid()
      ensures banned == map k | k in old(banned) && k != KeyOf(endpointBase, contextId) :: old(banned)[k]
      ensures old(NulFree()) && NUL !in endpointBase ==>
                NulFree() && Pairs() == old(Pairs()) - {BanKey(endpointBase, contextId)}
    {
      var key := KeyOf(endpointBase, contextId);
      ghost var before := banned;
      banned := map k | k in banned && k != key :: banned[k];
      if NUL !in endpointBase && old(NulFree()) {
        forall k | k in before ensures before[k] == BanKey(endpointBase, contextId) <==> k == key {
          if k == key { KeysAreInjective(before[k], BanKey(endpointBase, contextId)); }
        }
        assert forall k :: k in banned ==> k in before && banned[k] == before[k];
        assert forall k :: k in before && k != key ==> k in banned;
      }
    }

    method ReleaseOnConfirmedAbort(endpointBase: string, contextId: string)
      requires Valid()
      modifies this
      ensures Valid()
      ensures banned == map k | k in old(banned) && k != KeyOf(endpointBase, contextId) :: old(banned)[k]
      ensures old(NulFree()) && NUL !in endpointBase ==>
                NulFree() && Pairs() == old(Pairs()) - {BanKey(endpointBase, contextId)}
    {
      Release(endpointBase, contextId);
    }

    method ReleaseOnTerminal(endpointBase: string, contextId: string)
      requires Valid()
      modifies this
      ensures Valid()
      ensures banned == map k | k in old(banned) && k != KeyOf(endpointBase, contextId) :: old(banned)[k]
      ensures old(NulFree()) && NUL !in endpointBase ==>
                NulFree() && Pairs() == old(Pairs()) - {BanKey(endpointBase, contextId)}
    {
      Release(endpointBase, contextId);
    }
  }
}
