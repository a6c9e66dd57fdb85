/** JSON Pointers, printed and read (RFC 6901 sections 3 and 4). */
module Pointer {
  import opened Json

  datatype PathPart = Key(name: string) | Index(i: nat)

  type Path = seq<PathPart>

  /** The value a path leads to; keys go into objects and indices into arrays only. */
  function At(v: Json, path: Path): Option<Json> {
    if path == [] then Some(v) else
    match path[0]
    case Key(name) => if v.Obj? && name in v.fields then At(v.fields[name], path[1..]) else None
    case Index(i) => if v.Arr? && i < |v.items| then At(v.items[i], path[1..]) else None
  }

  lemma {:induction false} AtInTwoSteps(v: Json, p: Path, q: Path)
    ensures At(v, p + q) == if At(v, p).Some? then At(At(v, p).value, q) else None
  {
    if p == [] {
      assert p + q == q;
    } else {
      assert (p + q)[1..] == p[1..] + q;
      match p[0]
      case Key(name) => if v.Obj? && name in v.fields { AtInTwoSteps(v.fields[name], p[1..], q); }
      case Index(i) => if v.Arr? && i < |v.items| { AtInTwoSteps(v.items[i], p[1..], q); }
    }
  }

  // ----------------------------------------------------------------- escaping

  /** Every `c` replaced by the text `with`. */
  function ReplaceChar(s: string, c: char, with: string): string {
    if s == "" then "" else (if s[0] == c then with else [s[0]]) + ReplaceChar(s[1..], c, with)
  }

  /** Every pair `a``b`, found from the left, replaced by `with`. */
  function ReplacePair(s: string, a: char, b: char, with: char): string {
    if |s| < 2 then s
    else if s[0] == a && s[1] == b then [with] + ReplacePair(s[2..], a, b, with)
    else [s[0]] + ReplacePair(s[1..], a, b, with)
  }

  function Escape(s: string): string { ReplaceChar(ReplaceChar(s, '~', "~0"), '/', "~1") }

  function Unescape(s: string): string { ReplacePair(ReplacePair(s, '~', '1', '/'), '~', '0', '~') }

  lemma {:induction false} TildesComeBack(s: string)
    ensures ReplacePair(ReplaceChar(s, '~', "~0"), '~', '0', '~') == s
  {
    if s != "" {
      TildesComeBack(s[1..]);
      var e, rest := ReplaceChar(s, '~', "~0"), ReplaceChar(s[1..], '~', "~0");
      if s[0] == '~' {
        assert e == "~0" + rest && e[2..] == rest;
      } else {
        assert e == [s[0]] + rest && e[1..] == rest;
      }
    }
  }

  lemma {:induction false} SlashesComeBack(s: string)
    ensures ReplacePair(Escape(s), '~', '1', '/') == ReplaceChar(s, '~', "~0")
    ensures '/' !in Escape(s)
  {
    if s != "" {
      SlashesComeBack(s[1..]);
      var e, rest := Escape(s), Escape(s[1..]);
      var t := ReplaceChar(s[1..], '~', "~0");
      if s[0] == '~' {
        assert ReplaceChar(s, '~', "~0") == "~0" + t && ("~0" + t)[1..] == "0" + t && ("0" + t)[1..] == t;
        assert ReplaceChar("0" + t, '/', "~1") == "0" + rest;
        assert e == "~" + ("0" + rest) && e[1..] == "0" + rest && ("0" + rest)[1..] == rest;
        assert ReplacePair("0" + rest, '~', '1', '/') == "0" + ReplacePair(rest, '~', '1', '/');
      } else {
        assert ReplaceChar(s, '~', "~0") == [s[0]] + t && ([s[0]] + t)[1..] == t;
        if s[0] == '/' {
          assert e == "~1" + rest && e[2..] == rest;
        } else {
          assert e == [s[0]] + rest && e[1..] == rest;
        }
      }
    }
  }

  /** Escaping and unescaping are inverse for every string, and escaped parts contain no slash. */
  lemma EscapedPartsComeBack(s: string)
    ensures Unescape(Escape(s)) == s && '/' !in Escape(s)
  {
    SlashesComeBack(s);
    TildesComeBack(s);
  }

  // ------------------------------------------------------------------ numbers

  function Digit(d: nat): char
    requires d < 10
  {
    "0123456789"[d]
  }

  function DigitValue(c: char): int { if '0' <= c <= '9' then c as int - '0' as int else -1 }

  function PrintNat(n: nat): string { if n < 10 then [Digit(n)] else PrintNat(n / 10) + [Digit(n % 10)] }

  /** Decimal digits only. */
  function ParseNat(s: string): Option<nat> {
    if s == "" then None
    else
      var d := DigitValue(s[|s| - 1]);
      if d < 0 then None
      else if |s| == 1 then Some(d)
      else
        var high := ParseNat(s[..|s| - 1]);
        if high.None? then None else Some(10 * high.value + d)
  }

  lemma {:induction false} PrintedNatsAreReadBack(n: nat)
    ensures ParseNat(PrintNat(n)) == Some(n) && PrintNat(n) != "" && PrintNat(n)[0] != '-' && PrintNat(n)[0] != '+'
  {
    DigitsAreDigits();
    if n >= 10 {
      PrintedNatsAreReadBack(n / 10);
      var s := PrintNat(n);
      assert s[..|s| - 1] == PrintNat(n / 10);
    }
  }

  lemma DigitsAreDigits()
    ensures forall d :: 0 <= d < 10 ==> DigitValue(Digit(d)) == d && Digit(d) != '-' && Digit(d) != '+'
  {
    assert forall d :: 0 <= d < 10 ==> d in [0, 1, 2, 3, 4, 5, 6, 7, 8, 9];
  }

  /** Python's int() on signs and digits. */
  function ParseInt(s: string): Option<int> {
    if s != "" && s[0] == '-' then
      var n := ParseNat(s[1..]);
      if n.None? then None else var m: int := n.value; Some(-m)
    else if s != "" && s[0] == '+' then
      var n := ParseNat(s[1..]);
      if n.None? then None else Some(n.value)
    else
      var n := ParseNat(s);
      if n.None? then None else Some(n.value)
  }

  // ------------------------------------------------------------------ reading

  /** Splitting at a character, as str.split does: never an empty list. */
  function Split(s: string, c: char): (parts: seq<string>)
    ensures parts != []
  {
    if s == "" then [""]
    else
      var rest := Split(s[1..], c);
      if s[0] == c then [""] + rest else [[s[0]] + rest[0]] + rest[1..]
  }

  function Join(parts: seq<string>, c: char): string {
    if parts == [] then ""
    else if |parts| == 1 then parts[0]
    else parts[0] + [c] + Join(parts[1..], c)
  }

  lemma {:induction false} JoinUndoesSplit(s: string, c: char)
    ensures Join(Split(s, c), c) == s && (forall p :: p in Split(s, c) ==> c !in p)
  {
    if s != "" {
      JoinUndoesSplit(s[1..], c);
      var rest := Split(s[1..], c);
      if s[0] == c {
        assert ([""] + rest)[1..] == rest;
        assert Join(Split(s, c), c) == "" + [c] + Join(rest, c);
      } else {
        JoinWithLongerHead(s[0], rest, c);
        forall p | p in Split(s, c) ensures c !in p { assert p == [s[0]] + rest[0] || p in rest; }
      }
    }
  }

  lemma JoinWithLongerHead(x: char, parts: seq<string>, c: char)
    requires parts != []
    ensures Join([[x] + parts[0]] + parts[1..], c) == [x] + Join(parts, c)
  {
    var head := [x] + parts[0];
    assert ([head] + parts[1..])[1..] == parts[1..];
    assert head + [c] + Join(parts[1..], c) == [x] + (parts[0] + [c] + Join(parts[1..], c));
  }

  lemma {:induction false} SplitUndoesJoin(parts: seq<string>, c: char)
    requires parts != [] && forall p :: p in parts ==> c !in p
    ensures Split(Join(parts, c), c) == parts
    decreases |parts|, |parts[0]|
  {
    var s := Join(parts, c);
    if parts[0] == "" {
      if |parts| > 1 {
        SplitUndoesJoin(parts[1..], c);
        assert s == [c] + Join(parts[1..], c) && s[1..] == Join(parts[1..], c);
        assert parts == [""] + parts[1..];
      } else {
        assert parts == [""];
      }
    } else {
      var shorter := [parts[0][1..]] + parts[1..];
      assert parts[0] in parts;
      assert forall p :: p in shorter ==> c !in p;
      SplitUndoesJoin(shorter, c);
      assert shorter[1..] == parts[1..];
      assert s[1..] == Join(shorter, c);
      assert parts[0][0] in parts[0] && s[0] == parts[0][0] && s[0] != c;
      assert [s[0]] + shorter[0] == parts[0];
    }
  }

  /** One hop of the reader: arrays by int(part), negative from the end; everything else by key. */
  function Hop(v: Json, part: string): Option<Json> {
    match v
    case Arr(items) =>
      var i := ParseInt(part);
      if i.None? then None
      else if 0 <= i.value < |items| then Some(items[i.value])
      else if -|items| <= i.value < 0 then Some(items[|items| + i.value])
      else None
    case Obj(fields) => if part in fields then Some(fields[part]) else None
    case _ => None
  }

  /** An index counts from the front, a negative one from the end, and one beyond either end fails. */
  lemma IndicesCountFromBothEnds(items: seq<Json>, n: nat)
    ensures Hop(Arr(items), PrintNat(n)) == if n < |items| then Some(items[n]) else None
    ensures Hop(Arr(items), "-" + PrintNat(n)) ==
            if n == 0 then (if items == [] then None else Some(items[0]))
            else if n <= |items| then Some(items[|items| - n]) else None
  {
    PrintedNatsAreReadBack(n);
    var negative := "-" + PrintNat(n);
    assert negative[0] == '-' && negative[1..] == PrintNat(n);
    hide ParseNat, PrintNat;
    var m: int := n;
    assert ParseInt(negative) == Some(-m);
  }

  function Walk(v: Json, parts: seq<string>): Option<Json> {
    if parts == [] then Some(v) else
    var next := Hop(v, Unescape(parts[0]));
    if next.None? then None else Walk(next.value, parts[1..])
  }

  function JsonPointer(document: Json, pointer: string): Option<Json> {
    if pointer == "" then Some(document)
    else if pointer[0] != '/' then None
    else Walk(document, Split(pointer[1..], '/'))
  }

  /** The reader as the loop it is. */
  method ReadPointer(document: Json, pointer: string) returns (r: Option<Json>)
    ensures r == JsonPointer(document, pointer)
  {
    hide Hop, Unescape, Split;
    var current := document;
    if pointer == "" { return Some(current); }
    if pointer[0] != '/' { return None; }
    var parts := Split(pointer[1..], '/');
    var k := 0;
    while k < |parts|
      invariant 0 <= k <= |parts|
      invariant Walk(document, parts) == Walk(current, parts[k..])
    {
      var next := Hop(current, Unescape(parts[k]));
      if next.None? { return None; }
      current := next.value;
      assert parts[k..][1..] == parts[k + 1..];
      k := k + 1;
    }
    r := Some(current);
  }

  // ----------------------------------------------------------------- printing

  function PrintPart(part: PathPart): string {
    Escape(match part case Key(name) => name case Index(i) => PrintNat(i))
  }

  function PrintParts(path: Path): seq<string> {
    if path == [] then [] else [PrintPart(path[0])] + PrintParts(path[1..])
  }

  function PrintPointer(path: Path): string { "/" + Join(PrintParts(path), '/') }

  lemma {:induction false} PrintedPartsAreWalked(v: Json, path: Path)
    requires At(v, path).Some?
    ensures Walk(v, PrintParts(path)) == At(v, path)
    ensures |PrintParts(path)| == |path| && forall p :: p in PrintParts(path) ==> '/' !in p
  {
    if path != [] {
      match path[0] {
        case Key(name) =>
          EscapedPartsComeBack(name);
          PrintedPartsAreWalked(v.fields[name], path[1..]);
        case Index(i) =>
          EscapedPartsComeBack(PrintNat(i));
          PrintedNatsAreReadBack(i);
          PrintedPartsAreWalked(v.items[i], path[1..]);
      }
    }
  }

  /** Printing a path that leads somewhere and reading the pointer leads to the same value. */
  lemma PrintedPointersAreReadBack(v: Json, path: Path)
    requires path != [] && At(v, path).Some?
    ensures JsonPointer(v, PrintPointer(path)) == At(v, path)
  {
    PrintedPartsAreWalked(v, path);
    SplitUndoesJoin(PrintParts(path), '/');
    assert PrintPointer(path)[1..] == Join(PrintParts(path), '/');
  }
}
