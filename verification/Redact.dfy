/** Merging matched spans and splicing masks over them (check_secrets.py). */
module Redact {
  datatype Span = Span(start: nat, end: nat)

  /** The order of tuples. */
  predicate TupleOrder(a: Span, b: Span) { a.start < b.start || (a.start == b.start && a.end <= b.end) }

  /** sorted() on spans. */
  function SortSpans(spans: seq<Span>): (r: seq<Span>)
    ensures forall s :: s in r <==> s in spans
    ensures InOrder(r) && |r| == |spans|
  {
    if spans == [] then []
    else
      assert spans == [spans[0]] + spans[1..];
      InsertSpan(spans[0], SortSpans(spans[1..]))
  }

  predicate InOrder(spans: seq<Span>) { forall i, j :: 0 <= i < j < |spans| ==> TupleOrder(spans[i], spans[j]) }

  function InsertSpan(s: Span, spans: seq<Span>): (r: seq<Span>)
    requires InOrder(spans)
    ensures forall x :: x in r <==> x == s || x in spans
    ensures InOrder(r) && |r| == |spans| + 1
  {
    if spans == [] || TupleOrder(s, spans[0]) then [s] + spans
    else
      assert spans == [spans[0]] + spans[1..];
      var rest := InsertSpan(s, spans[1..]);
      assert forall x :: x in rest ==> TupleOrder(spans[0], x);
      [spans[0]] + rest
  }

  ghost predicate Within(spans: seq<Span>, n: nat) {
    forall i :: 0 <= i < |spans| ==> spans[i].start <= spans[i].end <= n
  }

  ghost predicate Covers(spans: seq<Span>, k: int) {
    exists i :: 0 <= i < |spans| && spans[i].start <= k < spans[i].end
  }

  /** Sorted, and with at least one position between any span and the next. */
  ghost predicate Separated(spans: seq<Span>) {
    forall i, j :: 0 <= i < j < |spans| ==> spans[i].end < spans[j].start
  }

  function Max(a: nat, b: nat): nat { if a < b then b else a }

  /** One span more: it joins the last one when it touches it. */
  function Absorb(merged: seq<Span>, s: Span): seq<Span> {
    if merged != [] && s.start <= merged[|merged| - 1].end
    then merged[..|merged| - 1] + [Span(merged[|merged| - 1].start, Max(merged[|merged| - 1].end, s.end))]
    else merged + [s]
  }

  function MergedOf(sorted: seq<Span>): seq<Span> {
    if sorted == [] then [] else Absorb(MergedOf(sorted[..|sorted| - 1]), sorted[|sorted| - 1])
  }

  /** The spans joined where they overlap or touch. */
  function Merged(spans: seq<Span>): seq<Span> { MergedOf(SortSpans(spans)) }

  /** Every bound of the merge is a bound of some span. */
  ghost predicate BoundsAmong(merged: seq<Span>, spans: seq<Span>) {
    forall m :: m in merged ==> (exists s :: s in spans && s.start == m.start) && (exists s :: s in spans && s.end == m.end)
  }

  /** The state of the merge after some spans of the sorted list. */
  ghost predicate MergeOf(merged: seq<Span>, done: seq<Span>, all: seq<Span>, n: nat) {
    && Within(merged, n) && Separated(merged) && BoundsAmong(merged, all)
    && (done == [] <==> merged == [])
    && (done != [] ==> merged != [] && merged[|merged| - 1].start <= done[|done| - 1].start)
    && SameCover(merged, done) && EachInside(done, merged)
  }

  /** Every span lies inside a merged one, an empty span too. */
  ghost predicate EachInside(spans: seq<Span>, merged: seq<Span>) {
    forall s :: s in spans ==> exists m :: m in merged && m.start <= s.start && s.end <= m.end
  }

  lemma AbsorbHolds(merged: seq<Span>, done: seq<Span>, s: Span)
    requires EachInside(done, merged) && s.start <= s.end && (merged != [] ==> merged[|merged| - 1].start <= s.start)
    ensures EachInside(done + [s], Absorb(merged, s))
  {
    var after := Absorb(merged, s);
    assert after[|after| - 1] in after && after[|after| - 1].start <= s.start && s.end <= after[|after| - 1].end;
    forall x | x in done ensures exists m :: m in after && m.start <= x.start && x.end <= m.end {
      var m :| m in merged && m.start <= x.start && x.end <= m.end;
      var i :| 0 <= i < |merged| && merged[i] == m;
      if i < |merged| - 1 { assert after[i] == m; }
    }
  }

  ghost predicate SameCover(a: seq<Span>, b: seq<Span>) { forall k :: Covers(a, k) <==> Covers(b, k) }

  /** `wider` covers what `spans` covers and the positions of s. */
  ghost predicate CoversAlso(wider: seq<Span>, spans: seq<Span>, s: Span) {
    forall k :: Covers(wider, k) <==> Covers(spans, k) || s.start <= k < s.end
  }

  lemma CoverGrowsTogether(wider: seq<Span>, merged: seq<Span>, done: seq<Span>, s: Span)
    requires SameCover(merged, done) && CoversAlso(wider, merged, s)
    ensures SameCover(wider, done + [s])
  {
    CoversOneMore(done, s);
  }

  lemma MergeStep(merged: seq<Span>, done: seq<Span>, s: Span, all: seq<Span>, n: nat)
    requires MergeOf(merged, done, all, n) && s in all && s.start <= s.end <= n && (done != [] ==> TupleOrder(done[|done| - 1], s))
    ensures MergeOf(Absorb(merged, s), done + [s], all, n)
  {
    hide Covers, Within, Separated, BoundsAmong, SameCover, CoversAlso, EachInside;
    AbsorbHolds(merged, done, s);
    if merged != [] && s.start <= merged[|merged| - 1].end {
      var last := merged[|merged| - 1];
      var after := merged[..|merged| - 1] + [Span(last.start, Max(last.end, s.end))];
      GrowLast(merged, s, n, all);
      CoverGrowsTogether(after, merged, done, s);
      assert after[|after| - 1].start == last.start;
    } else {
      CoversOneMore(merged, s);
      AppendSpan(merged, s, n, all);
      CoverGrowsTogether(merged + [s], merged, done, s);
    }
  }

  lemma NothingMerged(all: seq<Span>, n: nat)
    ensures MergeOf([], [], all, n)
  {
  }

  /** The merge is sorted and separated, covers exactly the union, and holds every span; its bounds are bounds of spans. */
  lemma MergedIsTheUnion(spans: seq<Span>, n: nat)
    requires Within(spans, n)
    ensures Within(Merged(spans), n) && Separated(Merged(spans)) && BoundsAmong(Merged(spans), spans)
    ensures (forall k :: Covers(Merged(spans), k) <==> Covers(spans, k)) && EachInside(spans, Merged(spans))
    ensures Merged(spans) == [] <==> spans == []
  {
    var sorted := SortSpans(spans);
    assert sorted[..|sorted|] == sorted;
    SameMembersCoverTheSame(spans, sorted, n);
    MergedPrefix(sorted, |sorted|, n);
    hide MergedOf, SortSpans, InOrder, Within;
    MergeDone(MergedOf(sorted), sorted, spans, n);
  }

  lemma MergeDone(merged: seq<Span>, sorted: seq<Span>, spans: seq<Span>, n: nat)
    requires MergeOf(merged, sorted, sorted, n) && (forall s :: s in sorted <==> s in spans) && |sorted| == |spans|
    ensures Within(merged, n) && Separated(merged) && BoundsAmong(merged, spans)
    ensures (forall k :: Covers(merged, k) <==> Covers(spans, k)) && EachInside(spans, merged)
    ensures merged == [] <==> spans == []
  {
    SameMembersCoverTheSame(spans, sorted, n);
    SameMembersBound(merged, sorted, spans);
    hide Covers, Within, Separated, BoundsAmong, EachInside;
  }

  lemma SameMembersBound(merged: seq<Span>, sorted: seq<Span>, spans: seq<Span>)
    requires forall s :: s in sorted <==> s in spans
    ensures BoundsAmong(merged, sorted) ==> BoundsAmong(merged, spans)
    ensures EachInside(sorted, merged) ==> EachInside(spans, merged)
  {
    if BoundsAmong(merged, sorted) {
      forall m | m in merged ensures (exists s :: s in spans && s.start == m.start) && (exists s :: s in spans && s.end == m.end) {
        var s :| s in sorted && s.start == m.start;
        var t :| t in sorted && t.end == m.end;
        assert s in spans && t in spans;
      }
    }
  }

  lemma {:induction false} MergedPrefix(sorted: seq<Span>, i: nat, n: nat)
    requires i <= |sorted| && InOrder(sorted) && Within(sorted, n)
    ensures MergeOf(MergedOf(sorted[..i]), sorted[..i], sorted, n)
  {
    if i == 0 {
      NothingMerged(sorted, n);
    } else {
      MergedPrefix(sorted, i - 1, n);
      NextMerge(sorted, i - 1);
      var s := sorted[i - 1];
      assert s in sorted && s.start <= s.end <= n;
      hide MergeOf, MergedOf, InOrder, Within, TupleOrder, Absorb;
      MergeStep(MergedOf(sorted[..i - 1]), sorted[..i - 1], s, sorted, n);
    }
  }

  lemma NextMerge(sorted: seq<Span>, i: nat)
    requires i < |sorted| && InOrder(sorted)
    ensures sorted[..i + 1] == sorted[..i] + [sorted[i]]
    ensures MergedOf(sorted[..i + 1]) == Absorb(MergedOf(sorted[..i]), sorted[i])
    ensures sorted[..i] != [] ==> TupleOrder(sorted[..i][|sorted[..i]| - 1], sorted[i])
  {
    hide Absorb, TupleOrder;
    assert sorted[..i + 1][..i] == sorted[..i];
  }

  method MergeSpans(spans: seq<Span>, ghost n: nat) returns (merged: seq<Span>)
    requires Within(spans, n)
    ensures merged == Merged(spans)
    ensures Within(merged, n) && Separated(merged) && BoundsAmong(merged, spans)
    ensures (forall k :: Covers(merged, k) <==> Covers(spans, k)) && EachInside(spans, merged)
    ensures merged == [] <==> spans == []
  {
    hide Within, Separated, BoundsAmong, Covers, EachInside, InOrder, TupleOrder;
    var sorted := SortSpans(spans);
    merged := [];
    for i := 0 to |sorted|
      invariant merged == MergedOf(sorted[..i])
    {
      var s := sorted[i];
      assert sorted[..i + 1][..i] == sorted[..i];
      if merged != [] && s.start <= merged[|merged| - 1].end {
        merged := merged[..|merged| - 1] + [Span(merged[|merged| - 1].start, Max(merged[|merged| - 1].end, s.end))];
      } else {
        merged := merged + [s];
      }
    }
    assert sorted[..|sorted|] == sorted;
    MergedIsTheUnion(spans, n);
  }

  lemma GrowLast(merged: seq<Span>, s: Span, n: nat, all: seq<Span>)
    requires merged != [] && Within(merged, n) && Separated(merged) && BoundsAmong(merged, all)
    requires s in all && s.start <= s.end <= n && merged[|merged| - 1].start <= s.start <= merged[|merged| - 1].end
    ensures var last := merged[|merged| - 1];
            var grown := merged[..|merged| - 1] + [Span(last.start, Max(last.end, s.end))];
            && Within(grown, n) && Separated(grown) && BoundsAmong(grown, all)
            && CoversAlso(grown, merged, s)
  {
    hide Covers, CoversAlso;
    var front, last := merged[..|merged| - 1], merged[|merged| - 1];
    assert merged == front + [last] && last in merged;
    WiderLastCovers(front, last, s);
    forall m | m in front ensures m in merged {}
  }

  lemma WiderLastCovers(front: seq<Span>, last: Span, s: Span)
    requires last.start <= s.start <= last.end && s.start <= s.end
    ensures CoversAlso(front + [Span(last.start, Max(last.end, s.end))], front + [last], s)
  {
    CoversOneMore(front, last);
    CoversOneMore(front, Span(last.start, Max(last.end, s.end)));
    hide Covers;
  }

  lemma AppendSpan(merged: seq<Span>, s: Span, n: nat, all: seq<Span>)
    requires Within(merged, n) && Separated(merged) && BoundsAmong(merged, all)
    requires s in all && s.start <= s.end <= n && (merged != [] ==> merged[|merged| - 1].end < s.start)
    ensures Within(merged + [s], n) && Separated(merged + [s]) && BoundsAmong(merged + [s], all)
  {
    forall i, j | 0 <= i < j < |merged + [s]| ensures (merged + [s])[i].end < (merged + [s])[j].start {
      if j == |merged| && i < |merged| - 1 { assert merged[i].end < merged[|merged| - 1].start; }
    }
  }

  lemma SameMembersCoverTheSame(a: seq<Span>, b: seq<Span>, n: nat)
    requires forall s :: s in a <==> s in b
    ensures (forall k :: Covers(a, k) <==> Covers(b, k)) && (Within(a, n) ==> Within(b, n))
  {
    forall i | 0 <= i < |b| ensures b[i] in a { assert b[i] in b; }
    forall k | Covers(a, k) ensures Covers(b, k) {
      var i :| 0 <= i < |a| && a[i].start <= k < a[i].end;
      assert a[i] in b;
    }
    forall k | Covers(b, k) ensures Covers(a, k) {
      var i :| 0 <= i < |b| && b[i].start <= k < b[i].end;
      assert b[i] in a;
    }
  }

  lemma CoversOneMore(spans: seq<Span>, s: Span)
    ensures CoversAlso(spans + [s], spans, s)
  {
    forall k | Covers(spans, k) || s.start <= k < s.end ensures Covers(spans + [s], k) {
      if s.start <= k < s.end {
        assert (spans + [s])[|spans|] == s;
      } else {
        var i :| 0 <= i < |spans| && spans[i].start <= k < spans[i].end;
        assert (spans + [s])[i] == spans[i];
      }
    }
    forall k | Covers(spans + [s], k) ensures Covers(spans, k) || s.start <= k < s.end {
      var i :| 0 <= i < |spans + [s]| && (spans + [s])[i].start <= k < (spans + [s])[i].end;
      if i < |spans| { assert spans[i] == (spans + [s])[i]; }
    }
  }

  ghost predicate NonEmptySpans(spans: seq<Span>) { forall i :: 0 <= i < |spans| ==> spans[i].start < spans[i].end }

  /** There is only one separated list of non-empty spans with a given union, so the merge is determined. */
  lemma {:induction false} SeparatedCoverIsUnique(a: seq<Span>, b: seq<Span>)
    requires Separated(a) && Separated(b) && NonEmptySpans(a) && NonEmptySpans(b)
    requires forall k :: Covers(a, k) <==> Covers(b, k)
    ensures a == b
    decreases |a|
  {
    assert b != [] ==> Covers(b, b[0].start);
    if a != [] {
      assert Covers(a, a[0].start);
      FirstSpanIsSettled(a, b);
      FirstSpanIsSettled(b, a);
      assert a[0] == b[0];
      forall k ensures Covers(a[1..], k) <==> Covers(b[1..], k) {
        RestCovers(a, k);
        RestCovers(b, k);
      }
      SeparatedCoverIsUnique(a[1..], b[1..]);
      assert a == [a[0]] + a[1..] && b == [b[0]] + b[1..];
    }
  }

  lemma FirstSpanIsSettled(a: seq<Span>, b: seq<Span>)
    requires Separated(a) && Separated(b) && NonEmptySpans(a) && NonEmptySpans(b) && a != [] && b != []
    requires forall k :: Covers(a, k) <==> Covers(b, k)
    ensures a[0].start >= b[0].start && (a[0].start == b[0].start ==> a[0].end <= b[0].end)
  {
    assert Covers(a, a[0].start);
    var i :| 0 <= i < |b| && b[i].start <= a[0].start < b[i].end;
    assert !Covers(b, b[0].end);
    forall k | a[0].start <= k < a[0].end ensures Covers(b, k) { assert Covers(a, k); }
  }

  lemma RestCovers(a: seq<Span>, k: int)
    requires Separated(a) && NonEmptySpans(a) && a != []
    ensures Covers(a[1..], k) <==> Covers(a, k) && k > a[0].end
  {
    if Covers(a[1..], k) {
      var i :| 0 <= i < |a[1..]| && a[1..][i].start <= k < a[1..][i].end;
      assert a[i + 1] == a[1..][i];
    }
    if Covers(a, k) && k > a[0].end {
      var i :| 0 <= i < |a| && a[i].start <= k < a[i].end;
      assert a[1..][i - 1] == a[i];
    }
  }

  // -------------------------------------------------------------------- splice

  function RedactValue(value: string): string {
    if |value| <= 8 then "***" else value[..2] + "***" + value[|value| - 3..]
  }

  /** A mask shows nothing of a short value, and of a longer one its first two and last three characters and not its length. */
  lemma MasksHide(value: string)
    ensures |value| <= 8 ==> RedactValue(value) == "***"
    ensures |value| > 8 ==> |RedactValue(value)| == 8
    ensures forall other: string ::
              (if |value| <= 8 then |other| <= 8
               else |other| > 8 && value[..2] == other[..2] && value[|value| - 3..] == other[|other| - 3..])
              ==> RedactValue(value) == RedactValue(other)
  {
  }

  /** The gaps of the text in order, with one mask in place of each span. */
  function Interleave(content: string, spans: seq<Span>, from: nat): string
    requires from <= |content| && Within(spans, |content|) && Separated(spans) && (spans != [] ==> from <= spans[0].start)
    decreases |spans|
  {
    if spans == [] then content[from..]
    else
      content[from..spans[0].start] + RedactValue(content[spans[0].start..spans[0].end])
      + Interleave(content, spans[1..], spans[0].end)
  }

  lemma InterleaveFrom(content: string, spans: seq<Span>, from: nat)
    requires from <= |content| && Within(spans, |content|) && Separated(spans) && (spans != [] ==> from <= spans[0].start)
    ensures |Interleave(content, spans, 0)| >= from
    ensures Interleave(content, spans, 0)[..from] == content[..from]
    ensures Interleave(content, spans, 0)[from..] == Interleave(content, spans, from)
  {
    hide Interleave, RedactValue;
    if spans == [] {
      InterleaveOfNone(content, 0);
      InterleaveOfNone(content, from);
      assert content[0..] == content && spans == [];
    } else {
      var tail := RedactValue(content[spans[0].start..spans[0].end]) + Interleave(content, spans[1..], spans[0].end);
      InterleaveUnfolds(content, spans, 0);
      InterleaveUnfolds(content, spans, from);
      CutFirstGap(content, spans[0].start, from, tail);
    }
  }

  lemma InterleaveOfNone(content: string, from: nat)
    requires from <= |content|
    ensures Interleave(content, [], from) == content[from..]
  {
  }

  lemma InterleaveUnfolds(content: string, spans: seq<Span>, from: nat)
    requires from <= |content| && Within(spans, |content|) && Separated(spans) && spans != [] && from <= spans[0].start
    ensures Interleave(content, spans, from) == content[from..spans[0].start]
              + (RedactValue(content[spans[0].start..spans[0].end]) + Interleave(content, spans[1..], spans[0].end))
  {
  }

  lemma CutFirstGap(content: string, start: nat, from: nat, tail: string)
    requires from <= start <= |content|
    ensures (content[0..start] + tail)[..from] == content[..from]
    ensures (content[0..start] + tail)[from..] == content[from..start] + tail
  {
  }

  /** Replacing from right to left. */
  method Splice(content: string, merged: seq<Span>) returns (redacted: string)
    requires Within(merged, |content|) && Separated(merged)
    ensures redacted == Interleave(content, merged, 0)
  {
    redacted := content;
    var i := |merged|;
    InterleaveOfNone(content, 0);
    assert merged[i..] == [] && content[0..] == content;
    assert merged[0..] == merged;
    while i > 0
      invariant 0 <= i <= |merged| && Within(merged[i..], |content|) && Separated(merged[i..])
      invariant redacted == Interleave(content, merged[i..], 0)
    {
      i := i - 1;
      SpliceOne(content, merged, i);
      redacted := redacted[..merged[i].start] + RedactValue(content[merged[i].start..merged[i].end]) + redacted[merged[i].end..];
    }
  }

  lemma SuffixIsSeparated(content: string, merged: seq<Span>, i: nat)
    requires i < |merged| && Within(merged, |content|) && Separated(merged)
    ensures Within(merged[i..], |content|) && Separated(merged[i..]) && Within(merged[i + 1..], |content|) && Separated(merged[i + 1..])
    ensures merged[i..] == [merged[i]] + merged[i + 1..] && merged[i..][1..] == merged[i + 1..]
    ensures merged[i + 1..] != [] ==> merged[i].end < merged[i + 1..][0].start
  {
  }

  lemma SpliceOne(content: string, merged: seq<Span>, i: nat)
    requires i < |merged| && Within(merged, |content|) && Separated(merged)
    ensures Within(merged[i..], |content|) && Separated(merged[i..]) && Within(merged[i + 1..], |content|) && Separated(merged[i + 1..])
    ensures var s, text := merged[i], Interleave(content, merged[i + 1..], 0);
            && s.start <= s.end <= |text|
            && text[..s.start] + RedactValue(content[s.start..s.end]) + text[s.end..] == Interleave(content, merged[i..], 0)
  {
    var s := merged[i];
    SuffixIsSeparated(content, merged, i);
    InterleaveFrom(content, merged[i + 1..], s.end);
    InterleaveFrom(content, merged[i + 1..], s.start);
    InterleaveUnfolds(content, merged[i..], 0);
    hide Within, Separated, Interleave, RedactValue;
    assert content[0..s.start] == content[..s.start];
  }

  /** What is printed of a text with matched spans. */
  function Redacted(content: string, spans: seq<Span>): string
    requires Within(spans, |content|)
  {
    MergedIsTheUnion(spans, |content|);
    Interleave(content, Merged(spans), 0)
  }

  /** The end of the redaction: merge, then splice. */
  method RedactSpans(content: string, spans: seq<Span>) returns (redacted: string)
    requires Within(spans, |content|)
    ensures redacted == Redacted(content, spans)
  {
    MergedIsTheUnion(spans, |content|);
    if spans == [] {
      assert content[0..] == content;
      return content;
    }
    var merged := MergeSpans(spans, |content|);
    redacted := Splice(content, merged);
  }

  /** It is the gaps and the masks of the merged spans in turn, and the gaps are what no matched span covers. */
  lemma RedactedInTurn(content: string, spans: seq<Span>)
    requires Within(spans, |content|)
    ensures Within(Merged(spans), |content|) && Separated(Merged(spans))
    ensures Redacted(content, spans) == Alternate(Gaps(content, Merged(spans), 0), Masks(content, Merged(spans)))
    ensures Concat(Gaps(content, Merged(spans), 0)) == Uncovered(content, spans, 0)
  {
    MergedIsTheUnion(spans, |content|);
    InterleaveAlternates(content, Merged(spans), 0);
    GapsAreTheUncoveredText(content, spans, Merged(spans), 0);
  }

  // ------------------------------------------------------------ what is hidden

  /** The character may show: no span covers it, or it is among the first two or last three of a longer span. */
  ghost predicate MayShow(merged: seq<Span>, k: int) {
    forall i :: 0 <= i < |merged| && merged[i].start <= k < merged[i].end ==>
      merged[i].end - merged[i].start > 8 && (k < merged[i].start + 2 || merged[i].end - 3 <= k)
  }

  /**
   * Nothing else of the text shows: two texts of one length that agree in the
   * characters that may show are printed alike.
   */
  lemma SecretsDoNotShow(a: string, b: string, spans: seq<Span>)
    requires |a| == |b| && Within(spans, |a|)
    requires forall k :: 0 <= k < |a| && MayShow(Merged(spans), k) ==> a[k] == b[k]
    ensures Redacted(a, spans) == Redacted(b, spans)
  {
    MergedIsTheUnion(spans, |a|);
    SameInterleave(a, b, Merged(spans), 0);
  }

  lemma {:induction false} SameInterleave(a: string, b: string, merged: seq<Span>, from: nat)
    requires |a| == |b| && from <= |a| && Within(merged, |a|) && Separated(merged) && (merged != [] ==> from <= merged[0].start)
    requires forall k :: from <= k < |a| && MayShow(merged, k) ==> a[k] == b[k]
    ensures Interleave(a, merged, from) == Interleave(b, merged, from)
    decreases |merged|
  {
    hide RedactValue, MayShow;
    if merged == [] {
      forall k | from <= k < |a| ensures a[k] == b[k] { UncoveredMayShow(merged, k); }
      assert a[from..] == b[from..];
    } else {
      var m, rest := merged[0], merged[1..];
      forall k | from <= k < m.start ensures a[k] == b[k] { UncoveredMayShow(merged, k); }
      assert a[from..m.start] == b[from..m.start];
      SameMask(a, b, merged);
      forall k | m.end <= k < |a| && MayShow(rest, k) ensures a[k] == b[k] { RestMayShow(merged, k); }
      SameInterleave(a, b, rest, m.end);
    }
  }

  lemma UncoveredMayShow(merged: seq<Span>, k: int)
    requires Separated(merged) && (merged != [] ==> k < merged[0].start) && (forall i :: 0 <= i < |merged| ==> merged[i].start <= merged[i].end)
    ensures MayShow(merged, k)
  {
  }

  lemma RestMayShow(merged: seq<Span>, k: int)
    requires merged != [] && merged[0].end <= k && MayShow(merged[1..], k)
    ensures MayShow(merged, k)
  {
    forall i | 0 <= i < |merged| && merged[i].start <= k < merged[i].end
      ensures merged[i].end - merged[i].start > 8 && (k < merged[i].start + 2 || merged[i].end - 3 <= k)
    {
      assert merged[1..][i - 1] == merged[i];
    }
  }

  lemma SameMask(a: string, b: string, merged: seq<Span>)
    requires |a| == |b| && Within(merged, |a|) && Separated(merged) && merged != []
    requires forall k :: merged[0].start <= k < |a| && MayShow(merged, k) ==> a[k] == b[k]
    ensures RedactValue(a[merged[0].start..merged[0].end]) == RedactValue(b[merged[0].start..merged[0].end])
  {
    var m := merged[0];
    var x, y := a[m.start..m.end], b[m.start..m.end];
    if |x| > 8 {
      forall k | m.start <= k < m.end && (k < m.start + 2 || m.end - 3 <= k) ensures a[k] == b[k] {
        assert forall i :: 0 < i < |merged| ==> k < merged[i].start;
        assert MayShow(merged, k);
      }
      assert forall i :: 0 <= i < |x| ==> x[i] == a[m.start + i] && y[i] == b[m.start + i];
      forall i | 0 <= i < 2 || |x| - 3 <= i < |x| ensures x[i] == y[i] { assert a[m.start + i] == b[m.start + i]; }
      assert x[..2] == [x[0], x[1]] && y[..2] == [y[0], y[1]];
      assert x[|x| - 3..] == [x[|x| - 3], x[|x| - 2], x[|x| - 1]] && y[|y| - 3..] == [y[|y| - 3], y[|y| - 2], y[|y| - 1]];
    }
    MasksHide(x);
  }

  // ----------------------------------------------------- what remains readable

  /** The stretches of text before, between and behind the spans. */
  function Gaps(content: string, spans: seq<Span>, from: nat): (r: seq<string>)
    requires from <= |content| && Within(spans, |content|) && Separated(spans) && (spans != [] ==> from <= spans[0].start)
    ensures |r| == |spans| + 1
    decreases |spans|
  {
    if spans == [] then [content[from..]]
    else [content[from..spans[0].start]] + Gaps(content, spans[1..], spans[0].end)
  }

  /** What stands in place of each span. */
  function Masks(content: string, spans: seq<Span>): seq<string>
    requires Within(spans, |content|)
  {
    seq(|spans|, i requires 0 <= i < |spans| => RedactValue(content[spans[i].start..spans[i].end]))
  }

  /** Gaps and masks in turn, a gap first and last. */
  function Alternate(gaps: seq<string>, masks: seq<string>): string
    requires |gaps| == |masks| + 1
  {
    if masks == [] then gaps[0] else gaps[0] + masks[0] + Alternate(gaps[1..], masks[1..])
  }

  function Concat(parts: seq<string>): string { if parts == [] then "" else parts[0] + Concat(parts[1..]) }

  /** The spliced text is its gaps and its masks in turn. */
  lemma {:induction false} InterleaveAlternates(content: string, spans: seq<Span>, from: nat)
    requires from <= |content| && Within(spans, |content|) && Separated(spans) && (spans != [] ==> from <= spans[0].start)
    ensures Interleave(content, spans, from) == Alternate(Gaps(content, spans, from), Masks(content, spans))
    decreases |spans|
  {
    hide RedactValue;
    if spans != [] {
      InterleaveAlternates(content, spans[1..], spans[0].end);
      assert Masks(content, spans)[1..] == Masks(content, spans[1..]);
      assert Gaps(content, spans, from)[1..] == Gaps(content, spans[1..], spans[0].end);
    }
  }

  /** The characters that no span covers. */
  ghost function Uncovered(content: string, spans: seq<Span>, from: nat): string
    requires from <= |content|
    decreases |content| - from
  {
    if from == |content| then ""
    else (if Covers(spans, from) then "" else [content[from]]) + Uncovered(content, spans, from + 1)
  }

  lemma {:induction false} UncoveredRun(content: string, spans: seq<Span>, from: nat, to: nat)
    requires from <= to <= |content| && forall k :: from <= k < to ==> !Covers(spans, k)
    ensures Uncovered(content, spans, from) == content[from..to] + Uncovered(content, spans, to)
    decreases if from <= to then to - from else 0
  {
    hide Covers;
    if from == to {
      assert content[from..to] == "";
    } else {
      UncoveredRun(content, spans, from + 1, to);
      ShiftRun(content, from, to, Uncovered(content, spans, to));
    }
  }

  lemma ShiftRun(content: string, from: nat, to: nat, rest: string)
    requires from < to <= |content|
    ensures [content[from]] + (content[from + 1..to] + rest) == content[from..to] + rest
  {
  }

  lemma {:induction false} CoveredRun(content: string, spans: seq<Span>, from: nat, to: nat)
    requires from <= to <= |content| && forall k :: from <= k < to ==> Covers(spans, k)
    ensures Uncovered(content, spans, from) == Uncovered(content, spans, to)
    decreases if from <= to then to - from else 0
  {
    if from < to { CoveredRun(content, spans, from + 1, to); }
  }

  /** The gaps are exactly the characters outside all spans; everything else is behind a mask. */
  lemma {:induction false} GapsAreTheUncoveredText(content: string, spans: seq<Span>, merged: seq<Span>, from: nat)
    requires from <= |content| && Within(merged, |content|) && Separated(merged) && (merged != [] ==> from <= merged[0].start)
    requires forall k :: from <= k ==> (Covers(merged, k) <==> Covers(spans, k))
    ensures Concat(Gaps(content, merged, from)) == Uncovered(content, spans, from)
    decreases |merged|
  {
    if merged == [] {
      UncoveredRun(content, spans, from, |content|);
      assert Concat([content[from..]]) == content[from..];
    } else {
      var m, rest := merged[0], merged[1..];
      forall k | from <= k < m.start ensures !Covers(merged, k) {}
      UncoveredRun(content, spans, from, m.start);
      forall k | m.start <= k < m.end ensures Covers(merged, k) {}
      CoveredRun(content, spans, m.start, m.end);
      forall k | m.end <= k ensures Covers(rest, k) <==> Covers(merged, k) {
        if Covers(merged, k) {
          var i :| 0 <= i < |merged| && merged[i].start <= k < merged[i].end;
          assert rest[i - 1] == merged[i];
        }
        if Covers(rest, k) {
          var i :| 0 <= i < |rest| && rest[i].start <= k < rest[i].end;
          assert merged[i + 1] == rest[i];
        }
      }
      GapsAreTheUncoveredText(content, spans, rest, m.end);
      assert Gaps(content, merged, from)[1..] == Gaps(content, rest, m.end);
    }
  }
}
