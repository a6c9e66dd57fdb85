/** Mapping request paths to registered route templates (adapters_endpoint_coverage.py). */
module Routes {
  import opened Json
  import opened Pointer

  datatype Endpoint = Endpoint(verb: string, path: string)

  datatype Template = Template(segs: seq<string>, path: string)

  function NonEmpty(parts: seq<string>): seq<string> {
    if parts == [] then [] else (if parts[0] != "" then [parts[0]] else []) + NonEmpty(parts[1..])
  }

  function PathSegments(path: string): seq<string> { NonEmpty(Split(path, '/')) }

  lemma {:induction false} SegmentsAreNotEmpty(parts: seq<string>)
    ensures forall s :: s in NonEmpty(parts) ==> s != ""
  {
    if parts != [] { SegmentsAreNotEmpty(parts[1..]); }
  }

  /** Segments are what stands between slashes; empty ones do not count. */
  lemma {:induction false} SegmentsOfBoth(a: string, b: string)
    ensures PathSegments(a + "/" + b) == PathSegments(a) + PathSegments(b)
  {
    var left, right := Split(a, '/'), Split(b, '/');
    JoinUndoesSplit(a, '/');
    JoinUndoesSplit(b, '/');
    JoinOfBoth(left, right);
    SplitUndoesJoin(left + right, '/');
    NonEmptyOfBoth(left, right);
  }

  lemma OneSegment(seg: string)
    requires '/' !in seg
    ensures PathSegments(seg) == if seg == "" then [] else [seg]
  {
    SplitUndoesJoin([seg], '/');
    assert Split(seg, '/') == [seg] && [seg][1..] == [] && NonEmpty([seg][1..]) == [];
  }

  lemma {:induction false} JoinOfBoth(a: seq<string>, b: seq<string>)
    requires a != [] && b != []
    ensures Join(a + b, '/') == Join(a, '/') + "/" + Join(b, '/')
  {
    assert (a + b)[1..] == a[1..] + b;
    if |a| == 1 {
      assert a[1..] + b == b;
    } else {
      JoinOfBoth(a[1..], b);
      assert a[0] + ['/'] + (Join(a[1..], '/') + "/" + Join(b, '/')) == (a[0] + ['/'] + Join(a[1..], '/')) + "/" + Join(b, '/');
    }
  }

  lemma {:induction false} NonEmptyOfBoth(a: seq<string>, b: seq<string>)
    ensures NonEmpty(a + b) == NonEmpty(a) + NonEmpty(b)
  {
    if a == [] {
      assert a + b == b;
    } else {
      assert (a + b)[1..] == a[1..] + b;
      NonEmptyOfBoth(a[1..], b);
    }
  }

  predicate IsParam(seg: string) { seg != "" && seg[0] == '{' && seg[|seg| - 1] == '}' }

  /** A parameter is a name in braces. */
  lemma ParamsStandInBraces(seg: string)
    ensures IsParam(seg) <==> exists name: string :: seg == "{" + name + "}"
  {
    if IsParam(seg) { assert seg == "{" + seg[1..|seg| - 1] + "}"; }
  }

  /** One bit a segment: literal or not. */
  function Mask(segs: seq<string>): seq<bool> { seq(|segs|, i requires 0 <= i < |segs| => !IsParam(segs[i])) }

  /** Lexicographic order of Python lists of 0 and 1; the length in the sort key never decides. */
  predicate AtMost(a: seq<bool>, b: seq<bool>) {
    if a == [] then true
    else if b == [] then false
    else if a[0] == b[0] then AtMost(a[1..], b[1..])
    else b[0]
  }

  lemma {:induction false} AtMostIsTotal(a: seq<bool>, b: seq<bool>)
    ensures AtMost(a, b) || AtMost(b, a)
    ensures AtMost(a, b) && AtMost(b, a) ==> a == b
    ensures a == b ==> AtMost(a, b)
  {
    if a != [] && b != [] {
      AtMostIsTotal(a[1..], b[1..]);
      if AtMost(a, b) && AtMost(b, a) { assert a == [a[0]] + a[1..] && b == [b[0]] + b[1..]; }
    }
  }

  lemma {:induction false} AtMostIsTransitive(a: seq<bool>, b: seq<bool>, c: seq<bool>)
    requires AtMost(a, b) && AtMost(b, c)
    ensures AtMost(a, c)
  {
    if a != [] && b != [] && c != [] && a[0] == b[0] == c[0] { AtMostIsTransitive(a[1..], b[1..], c[1..]); }
  }

  function Rank(t: Template): seq<bool> { Mask(t.segs) }

  // ------------------------------------------------------------------ the sort

  /** The reverse sort is stable: an item goes before later ones of the same rank. */
  function Insert(x: Template, sorted: seq<Template>): seq<Template> {
    if sorted == [] || AtMost(Rank(sorted[0]), Rank(x)) then [x] + sorted
    else [sorted[0]] + Insert(x, sorted[1..])
  }

  function SortDescending(items: seq<Template>): seq<Template> {
    if items == [] then [] else Insert(items[0], SortDescending(items[1..]))
  }

  predicate Descending(s: seq<Template>) {
    forall i, j :: 0 <= i < j < |s| ==> AtMost(Rank(s[j]), Rank(s[i]))
  }

  lemma {:induction false} InsertAddsOne(x: Template, s: seq<Template>)
    ensures multiset(Insert(x, s)) == multiset(s) + multiset{x}
    ensures forall t :: t in Insert(x, s) <==> t == x || t in s
  {
    hide Rank, AtMost;
    if s != [] && !AtMost(Rank(s[0]), Rank(x)) {
      assert s == [s[0]] + s[1..];
      InsertAddsOne(x, s[1..]);
    }
  }

  lemma {:induction false} InsertKeepsOrder(x: Template, s: seq<Template>)
    requires Descending(s)
    ensures Descending(Insert(x, s))
  {
    hide Rank, AtMost;
    if s != [] {
      if AtMost(Rank(s[0]), Rank(x)) {
        forall j | 0 <= j < |s| ensures AtMost(Rank(s[j]), Rank(x)) {
          if j > 0 { AtMostIsTransitive(Rank(s[j]), Rank(s[0]), Rank(x)); }
        }
      } else {
        InsertKeepsOrder(x, s[1..]);
        InsertAddsOne(x, s[1..]);
        AtMostIsTotal(Rank(s[0]), Rank(x));
        var rest := Insert(x, s[1..]);
        forall j | 0 <= j < |rest| ensures AtMost(Rank(rest[j]), Rank(s[0])) {
          assert rest[j] in rest;
          if rest[j] != x {
            var i :| 0 <= i < |s[1..]| && s[1..][i] == rest[j];
            assert s[i + 1] == rest[j];
          }
        }
      }
    }
  }

  lemma {:induction false} SortIsAPermutation(items: seq<Template>)
    ensures Descending(SortDescending(items)) && multiset(SortDescending(items)) == multiset(items)
  {
    if items != [] {
      SortIsAPermutation(items[1..]);
      InsertKeepsOrder(items[0], SortDescending(items[1..]));
      InsertAddsOne(items[0], SortDescending(items[1..]));
      assert items == [items[0]] + items[1..];
    }
  }

  // ------------------------------------------------------------------ the code

  /** The templates of one verb, in the order of registration. */
  function TemplatesOf(endpoints: seq<Endpoint>, verb: string, n: nat): seq<Template>
    requires n <= |endpoints|
  {
    if n == 0 then []
    else
      var e := endpoints[n - 1];
      TemplatesOf(endpoints, verb, n - 1) + if e.verb == verb then [Template(PathSegments(e.path), e.path)] else []
  }

  /** What is registered for a verb: one template for each of its endpoints, in their order. */
  lemma {:induction false} OneTemplateForEachEndpoint(before: seq<Endpoint>, e: Endpoint, verb: string)
    ensures Registered([], verb) == []
    ensures Registered(before + [e], verb) ==
            Registered(before, verb) + if e.verb == verb then [Template(PathSegments(e.path), e.path)] else []
  {
    FirstTemplates(before, [e], verb, |before|);
  }

  lemma {:induction false} FirstTemplates(before: seq<Endpoint>, more: seq<Endpoint>, verb: string, n: nat)
    requires n <= |before|
    ensures TemplatesOf(before + more, verb, n) == TemplatesOf(before, verb, n)
  {
    if n > 0 { FirstTemplates(before, more, verb, n - 1); }
  }

  function Registered(endpoints: seq<Endpoint>, verb: string): seq<Template> { TemplatesOf(endpoints, verb, |endpoints|) }

  function Listed<T>(m: map<string, seq<T>>, key: string): seq<T> { if key in m then m[key] else [] }

  method BuildTemplateMatchers(endpoints: seq<Endpoint>) returns (byVerb: map<string, seq<Template>>)
    ensures forall verb :: Listed(byVerb, verb) == SortDescending(Registered(endpoints, verb))
  {
    byVerb := map[];
    for i := 0 to |endpoints|
      invariant forall verb :: Listed(byVerb, verb) == TemplatesOf(endpoints, verb, i)
    {
      var e := endpoints[i];
      byVerb := byVerb[e.verb := Listed(byVerb, e.verb) + [Template(PathSegments(e.path), e.path)]];
    }
    ghost var unsorted := byVerb;
    var todo := byVerb.Keys;
    while todo != {}
      invariant todo <= byVerb.Keys == unsorted.Keys
      invariant forall verb :: verb in byVerb ==> byVerb[verb] == if verb in todo then unsorted[verb] else SortDescending(unsorted[verb])
    {
      var verb :| verb in todo;
      byVerb := byVerb[verb := SortDescending(byVerb[verb])];
      todo := todo - {verb};
    }
    assert forall verb :: Listed(byVerb, verb) == SortDescending(Listed(unsorted, verb));
  }

  predicate Matches(t: seq<string>, segs: seq<string>) {
    |t| == |segs| && forall i :: 0 <= i < |t| ==> if IsParam(t[i]) then segs[i] != "" else t[i] == segs[i]
  }

  function FirstMatch(matchers: seq<Template>, segs: seq<string>): Option<Template> {
    if matchers == [] then None
    else if Matches(matchers[0].segs, segs) then Some(matchers[0])
    else FirstMatch(matchers[1..], segs)
  }

  /** The inner scan with its flag. */
  method SegmentsMatch(tmpl: seq<string>, segs: seq<string>) returns (ok: bool)
    requires |tmpl| == |segs|
    ensures ok == Matches(tmpl, segs)
  {
    ok := true;
    var i := 0;
    while i < |tmpl| && ok
      invariant 0 <= i <= |tmpl|
      invariant ok ==> forall j :: 0 <= j < i ==> if IsParam(tmpl[j]) then segs[j] != "" else tmpl[j] == segs[j]
      invariant !ok ==> !Matches(tmpl, segs)
    {
      if IsParam(tmpl[i]) {
        if segs[i] == "" { ok := false; }
      } else if tmpl[i] != segs[i] {
        ok := false;
      }
      i := i + 1;
    }
  }

  method MatchHit(verb: string, rawPath: string, matchers: map<string, seq<Template>>) returns (r: Option<string>)
    ensures var m := FirstMatch(Listed(matchers, verb), PathSegments(rawPath));
            r == if m.Some? then Some(m.value.path) else None
  {
    var segs := PathSegments(rawPath);
    var list := Listed(matchers, verb);
    for k := 0 to |list|
      invariant FirstMatch(list, segs) == FirstMatch(list[k..], segs)
    {
      assert list[k..][1..] == list[k + 1..];
      var tmpl := list[k].segs;
      if |tmpl| == |segs| {
        var ok := SegmentsMatch(tmpl, segs);
        if ok { return Some(list[k].path); }
      }
    }
    r := None;
  }

  // -------------------------------------------------------------------- results

  /** The winner among the registered templates: the greatest mask, and the first of that mask. */
  ghost predicate Wins(items: seq<Template>, segs: seq<string>, i: nat) {
    && i < |items| && Matches(items[i].segs, segs)
    && forall j :: 0 <= j < |items| && Matches(items[j].segs, segs) ==>
         AtMost(Rank(items[j]), Rank(items[i])) && (j < i ==> Rank(items[j]) != Rank(items[i]))
  }

  lemma {:induction false} FirstMatchAfterInsert(x: Template, s: seq<Template>, segs: seq<string>)
    requires Descending(s)
    ensures var m := FirstMatch(s, segs);
            FirstMatch(Insert(x, s), segs) ==
              if Matches(x.segs, segs) && (m.None? || AtMost(Rank(m.value), Rank(x))) then Some(x) else m
  {
    FirstMatchIsIn(s, segs);
    if s == [] || AtMost(Rank(s[0]), Rank(x)) {
      assert ([x] + s)[1..] == s;
      var m := FirstMatch(s, segs);
      if m.Some? && m.value != s[0] { AtMostIsTransitive(Rank(m.value), Rank(s[0]), Rank(x)); }
    } else {
      FirstMatchAfterInsert(x, s[1..], segs);
      assert Insert(x, s)[1..] == Insert(x, s[1..]);
    }
  }

  lemma {:induction false} FirstMatchIsIn(s: seq<Template>, segs: seq<string>)
    ensures var m := FirstMatch(s, segs);
            && (m.Some? ==> m.value in s && Matches(m.value.segs, segs))
            && (m.None? ==> forall t :: t in s ==> !Matches(t.segs, segs))
  {
    if s != [] { FirstMatchIsIn(s[1..], segs); }
  }

  /** The answer is right: none when nothing matches, the winner otherwise. */
  ghost predicate IsAnswer(items: seq<Template>, segs: seq<string>, m: Option<Template>) {
    && (m.None? ==> forall i :: 0 <= i < |items| ==> !Matches(items[i].segs, segs))
    && (m.Some? ==> exists i: nat :: Wins(items, segs, i) && items[i] == m.value)
  }

  /** The sorted list is searched front to back, which finds the winner, when there is one. */
  lemma {:induction false} FirstMatchWins(items: seq<Template>, segs: seq<string>)
    ensures IsAnswer(items, segs, FirstMatch(SortDescending(items), segs))
  {
    if items != [] {
      hide IsAnswer, Insert, FirstMatch, Matches, AtMost;
      FirstMatchWins(items[1..], segs);
      SortIsAPermutation(items[1..]);
      FirstMatchAfterInsert(items[0], SortDescending(items[1..]), segs);
      AnswerWithOneMore(items, segs, FirstMatch(SortDescending(items[1..]), segs));
    }
  }

  lemma AnswerWithOneMore(items: seq<Template>, segs: seq<string>, m: Option<Template>)
    requires items != [] && IsAnswer(items[1..], segs, m)
    ensures var x := items[0];
            IsAnswer(items, segs, if Matches(x.segs, segs) && (m.None? || AtMost(Rank(m.value), Rank(x))) then Some(x) else m)
  {
    var x, rest := items[0], items[1..];
    hide Matches, AtMost, Rank;
    if Matches(x.segs, segs) && (m.None? || AtMost(Rank(m.value), Rank(x))) {
      AtMostIsTotal(Rank(x), Rank(x));
      forall j | 0 < j < |items| && Matches(items[j].segs, segs) ensures AtMost(Rank(items[j]), Rank(x)) {
        assert items[j] == rest[j - 1];
        var i: nat :| Wins(rest, segs, i) && rest[i] == m.value;
        AtMostIsTransitive(Rank(items[j]), Rank(rest[i]), Rank(x));
      }
      assert Wins(items, segs, 0);
    } else if m.Some? {
      var i: nat :| Wins(rest, segs, i) && rest[i] == m.value;
      OtherWinsAfter(items, segs, i);
    } else {
      assert forall i :: 0 < i < |items| ==> items[i] == rest[i - 1];
    }
  }

  lemma OtherWinsAfter(items: seq<Template>, segs: seq<string>, i: nat)
    requires items != [] && Wins(items[1..], segs, i)
    requires !(Matches(items[0].segs, segs) && AtMost(Rank(items[1..][i]), Rank(items[0])))
    ensures Wins(items, segs, i + 1) && items[i + 1] == items[1..][i]
  {
    var rest := items[1..];
    forall j | 0 <= j < |items| && Matches(items[j].segs, segs)
      ensures AtMost(Rank(items[j]), Rank(items[i + 1])) && (j < i + 1 ==> Rank(items[j]) != Rank(items[i + 1]))
    {
      AtMostIsTotal(Rank(items[0]), Rank(rest[i]));
      if j > 0 { assert items[j] == rest[j - 1]; }
    }
  }

  lemma WinnerIsUnique(items: seq<Template>, segs: seq<string>, i: nat, j: nat)
    requires Wins(items, segs, i) && Wins(items, segs, j)
    ensures i == j
  {
    AtMostIsTotal(Rank(items[i]), Rank(items[j]));
  }

  /** A hit is answered exactly when some template of its verb matches, and then by the winner. */
  lemma MostSpecificTemplateAnswers(endpoints: seq<Endpoint>, verb: string, rawPath: string)
    ensures var items, segs := Registered(endpoints, verb), PathSegments(rawPath);
            var m := FirstMatch(SortDescending(items), segs);
            && (m.Some? <==> exists i :: 0 <= i < |items| && Matches(items[i].segs, segs))
            && (forall i: nat :: Wins(items, segs, i) ==> m == Some(items[i]))
            && (m.Some? ==> exists i: nat :: Wins(items, segs, i))
  {
    var items, segs := Registered(endpoints, verb), PathSegments(rawPath);
    var m := FirstMatch(SortDescending(items), segs);
    FirstMatchWins(items, segs);
    hide FirstMatch, SortDescending, Registered, PathSegments, AtMost, Matches;
    if m.Some? {
      var k: nat :| Wins(items, segs, k) && items[k] == m.value;
      forall i: nat | Wins(items, segs, i) ensures i == k { WinnerIsUnique(items, segs, i, k); }
    }
  }

  /** Equal except for the names of parameters. */
  predicate SameUpToNames(a: seq<string>, b: seq<string>) {
    |a| == |b| && forall i :: 0 <= i < |a| ==> if IsParam(a[i]) then IsParam(b[i]) else a[i] == b[i]
  }

  /** Whatever matches the text of a template has at most its literals. */
  lemma {:induction false} MatchersOfATemplateRankBelow(t: seq<string>, own: seq<string>)
    requires Matches(t, own)
    ensures AtMost(Mask(t), Mask(own)) && (Mask(t) == Mask(own) <==> SameUpToNames(t, own))
  {
    if t != [] {
      assert Mask(t)[1..] == Mask(t[1..]) && Mask(own)[1..] == Mask(own[1..]);
      MatchersOfATemplateRankBelow(t[1..], own[1..]);
      assert Mask(t)[0] == !IsParam(t[0]) && Mask(own)[0] == !IsParam(own[0]);
      assert Mask(t) == [Mask(t)[0]] + Mask(t[1..]) && Mask(own) == [Mask(own)[0]] + Mask(own[1..]);
      if SameUpToNames(t, own) {
        forall i | 0 <= i < |t| ensures Mask(t)[i] == Mask(own)[i] {}
      }
      if Mask(t) == Mask(own) {
        forall i | 0 <= i < |t| ensures if IsParam(t[i]) then IsParam(own[i]) else t[i] == own[i] { assert Mask(t)[i] == Mask(own)[i]; }
      }
    }
  }

  /**
   * A registered template used as a hit is answered by the first registered
   * template that equals it up to parameter names.
   */
  lemma TemplatesAnswerThemselves(endpoints: seq<Endpoint>, verb: string, i: nat, k: nat)
    requires k < |Registered(endpoints, verb)| && i <= k
    requires var items := Registered(endpoints, verb);
             && SameUpToNames(items[i].segs, items[k].segs)
             && forall j :: 0 <= j < i ==> !SameUpToNames(items[j].segs, items[k].segs)
    ensures var items := Registered(endpoints, verb);
            FirstMatch(SortDescending(items), PathSegments(items[k].path)) == Some(items[i])
  {
    var items := Registered(endpoints, verb);
    TemplatesHoldTheirSegments(endpoints, verb, |endpoints|, k);
    var segs := items[k].segs;
    SegmentsAreNotEmpty(Split(items[k].path, '/'));
    forall x | 0 <= x < |segs| ensures segs[x] != "" { assert segs[x] in segs; }
    assert Matches(items[i].segs, segs);
    MatchersOfATemplateRankBelow(items[i].segs, segs);
    forall j | 0 <= j < |items| && Matches(items[j].segs, segs)
      ensures AtMost(Rank(items[j]), Rank(items[i])) && (j < i ==> Rank(items[j]) != Rank(items[i]))
    {
      MatchersOfATemplateRankBelow(items[j].segs, segs);
    }
    assert Wins(items, segs, i);
    MostSpecificTemplateAnswers(endpoints, verb, items[k].path);
  }

  lemma {:induction false} TemplatesHoldTheirSegments(endpoints: seq<Endpoint>, verb: string, n: nat, k: nat)
    requires n <= |endpoints| && k < |TemplatesOf(endpoints, verb, n)|
    ensures var t := TemplatesOf(endpoints, verb, n)[k];
            t.segs == PathSegments(t.path) && Endpoint(verb, t.path) in endpoints
    decreases n
  {
    if k < |TemplatesOf(endpoints, verb, n - 1)| { TemplatesHoldTheirSegments(endpoints, verb, n - 1, k); }
  }
}
