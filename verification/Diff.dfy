/** Reading the added line numbers out of a `git diff -U0` (changed_line_cov.py). */
module Diff {
  import opened Json
  import opened Pointer

  type Byte = b: int | 0 <= b < 256

  type Bytes = seq<Byte>

  /** How a character is written in bytes; only that ASCII stands for itself matters here. */
  type Encoding = char -> Bytes

  ghost predicate KeepsAscii(encode: Encoding) {
    forall c: char :: c as int < 128 ==> encode(c) == [c as int]
  }

  function EncodeText(s: string, encode: Encoding): Bytes {
    if s == "" then [] else encode(s[0]) + EncodeText(s[1..], encode)
  }

  // ------------------------------------------------------------------ decoding

  predicate IsOctal(c: char) { '0' <= c <= '7' }

  /** int(s, 8) on digits; None for its ValueError. */
  function OctalValue(s: string): Option<nat> {
    if s == "" then Some(0)
    else
      var high := OctalValue(s[..|s| - 1]);
      if high.None? || !IsOctal(s[|s| - 1]) then None
      else Some(8 * high.value + (s[|s| - 1] as int - '0' as int))
  }

  function Escaped(c: char): int {
    match c
    case 'a' => 7
    case 'b' => 8
    case 't' => 9
    case 'n' => 10
    case 'v' => 11
    case 'f' => 12
    case 'r' => 13
    case _ => c as int
  }

  function Min(a: nat, b: nat): nat { if a < b then a else b }

  /** One unit of a quoted body: its bytes (None for a ValueError) and its length. */
  function Unit(body: string, encode: Encoding): (r: (Option<Bytes>, nat))
    requires body != ""
    ensures 0 < r.1
  {
    if body[0] != '\\' || |body| == 1 then (Some(encode(body[0])), 1)
    else if IsOctal(body[1]) then
      var v := OctalValue(body[1..Min(4, |body|)]);
      (if v.Some? && v.value < 256 then Some([v.value]) else None, 4)
    else (if Escaped(body[1]) < 256 then Some([Escaped(body[1])]) else None, 2)
  }

  function Prepend(bytes: Bytes, rest: Option<Bytes>): Option<Bytes> {
    if rest.None? then None else Some(bytes + rest.value)
  }

  function From(s: string, i: nat): string { s[Min(i, |s|)..] }

  function DecodeBody(body: string, encode: Encoding): Option<Bytes>
    decreases |body|
  {
    if body == "" then Some([])
    else
      var (unit, n) := Unit(body, encode);
      if unit.None? then None else Prepend(unit.value, DecodeBody(From(body, n), encode))
  }

  predicate IsQuoted(token: string) { |token| >= 2 && token[0] == '"' && token[|token| - 1] == '"' }

  function StripTabs(s: string): string {
    if s != "" && s[|s| - 1] == '\t' then StripTabs(s[..|s| - 1]) else s
  }

  /** The bytes of a path in a `+++` header, quoted or raw. */
  function DecodePath(token: string, encode: Encoding): Option<Bytes> {
    if IsQuoted(token) then DecodeBody(token[1..|token| - 1], encode)
    else Some(EncodeText(StripTabs(token), encode))
  }

  /** The decoder with its index loop. */
  method DecodeGitPath(token: string, encode: Encoding) returns (r: Option<Bytes>)
    ensures r == DecodePath(token, encode)
  {
    if !IsQuoted(token) { return Some(EncodeText(StripTabs(token), encode)); }
    var body := token[1..|token| - 1];
    var out: Bytes := [];
    var i := 0;
    StartOfBody(body, encode);
    hide DecodeBody, OctalValue, Escaped, From, Prepend, Unit;
    while i < |body|
      invariant 0 <= i
      invariant DecodeBody(body, encode) == Prepend(out, DecodeBody(From(body, i), encode))
      decreases |body| - i
    {
      TakeUnit(body, i, out, encode);
      if body[i] != '\\' || i + 1 == |body| {
        out := out + encode(body[i]);
        i := i + 1;
      } else if IsOctal(body[i + 1]) {
        var v := OctalValue(body[i + 1..Min(i + 4, |body|)]);
        if v.None? || v.value >= 256 { return None; }
        out := out + [v.value];
        i := i + 4;
      } else {
        var v := Escaped(body[i + 1]);
        if v >= 256 { return None; }
        out := out + [v];
        i := i + 2;
      }
    }
    EndOfBody(body, i, out, encode);
    r := Some(out);
  }

  lemma StartOfBody(body: string, encode: Encoding)
    ensures Prepend([], DecodeBody(From(body, 0), encode)) == DecodeBody(body, encode)
  {
    assert From(body, 0) == body;
    var r := DecodeBody(body, encode);
    if r.Some? { assert [] + r.value == r.value; }
  }

  lemma EndOfBody(body: string, i: nat, out: Bytes, encode: Encoding)
    requires i >= |body|
    ensures Prepend(out, DecodeBody(From(body, i), encode)) == Some(out)
  {
    assert From(body, i) == "" && out + [] == out;
  }

  /** What the next unit contributes, in terms of the index. */
  lemma TakeUnit(body: string, i: nat, out: Bytes, encode: Encoding)
    requires i < |body|
    ensures var (unit, n) := Unit(From(body, i), encode);
            && (body[i] != '\\' || i + 1 == |body| ==> unit == Some(encode(body[i])) && n == 1)
            && (body[i] == '\\' && i + 1 < |body| && IsOctal(body[i + 1]) ==>
                  var v := OctalValue(body[i + 1..Min(i + 4, |body|)]);
                  unit == (if v.Some? && v.value < 256 then Some([v.value]) else None) && n == 4)
            && (body[i] == '\\' && i + 1 < |body| && !IsOctal(body[i + 1]) ==>
                  unit == (if Escaped(body[i + 1]) < 256 then Some([Escaped(body[i + 1])]) else None) && n == 2)
            && Prepend(out, DecodeBody(From(body, i), encode)) ==
                 (if unit.None? then None else Prepend(out + unit.value, DecodeBody(From(body, i + n), encode)))
  {
    hide OctalValue, Escaped;
    var tail := From(body, i);
    var (unit, n) := Unit(tail, encode);
    assert tail[0] == body[i] && |tail| == |body| - i;
    if i + 1 < |body| {
      assert tail[1] == body[i + 1];
      assert tail[1..Min(4, |tail|)] == body[i + 1..Min(i + 4, |body|)];
    }
    assert From(tail, n) == From(body, i + n);
    if unit.Some? {
      var rest := DecodeBody(From(tail, n), encode);
      if rest.Some? { assert out + (unit.value + rest.value) == (out + unit.value) + rest.value; }
    }
  }

  // ------------------------------------------------------------------- quoting

  function OctalDigit(n: nat): char
    requires n < 8
  {
    "01234567"[n]
  }

  /** How git writes one byte inside double quotes. */
  function QuoteByte(b: Byte): string {
    match b
    case 7 => "\\a"
    case 8 => "\\b"
    case 9 => "\\t"
    case 10 => "\\n"
    case 11 => "\\v"
    case 12 => "\\f"
    case 13 => "\\r"
    case 34 => "\\\""
    case 92 => "\\\\"
    case _ =>
      if b < 32 || b >= 127 then ['\\', OctalDigit(b / 64), OctalDigit(b / 8 % 8), OctalDigit(b % 8)]
      else [b as char]
  }

  function QuoteBytes(path: Bytes): string {
    if path == [] then "" else QuoteByte(path[0]) + QuoteBytes(path[1..])
  }

  function Quote(path: Bytes): string { "\"" + QuoteBytes(path) + "\"" }

  predicate NeedsQuotes(path: Bytes) { exists i :: 0 <= i < |path| && (path[i] < 32 || path[i] >= 127 || path[i] in [34, 92]) }

  function RawText(path: Bytes): string { seq(|path|, i requires 0 <= i < |path| => path[i] as char) }

  /** A path as git prints it in a header: quoted when it must be, else raw, and a tab after a name with a blank, quoted or not. */
  function PrintPath(path: Bytes): string {
    (if NeedsQuotes(path) then Quote(path) else RawText(path)) + if 32 in path then "\t" else ""
  }

  /** Printed with quotes and a tab behind them: neither of the two forms that the decoder knows. */
  predicate Lost(path: Bytes) { NeedsQuotes(path) && 32 in path }

  lemma OctalComesBack(b: Byte)
    ensures var digits := [OctalDigit(b / 64), OctalDigit(b / 8 % 8), OctalDigit(b % 8)];
            OctalValue(digits) == Some(b) && IsOctal(digits[0])
  {
    var x, y, z := b / 64, b / 8 % 8, b % 8;
    DigitOfOctal(x); DigitOfOctal(y); DigitOfOctal(z);
    OctalOfThree(OctalDigit(x), OctalDigit(y), OctalDigit(z));
    assert b == 64 * x + 8 * y + z;
  }

  lemma OctalOfThree(x: char, y: char, z: char)
    requires IsOctal(x) && IsOctal(y) && IsOctal(z)
    ensures OctalValue([x, y, z]) == Some(64 * (x as int - 48) + 8 * (y as int - 48) + (z as int - 48))
  {
    assert [x, y, z][..2] == [x, y] && [x, y][..1] == [x] && [x][..0] == "";
    assert OctalValue("") == Some(0);
    assert OctalValue([x]) == Some(x as int - 48);
    assert OctalValue([x, y]) == Some(8 * (x as int - 48) + (y as int - 48));
  }

  lemma DigitOfOctal(n: nat)
    requires n < 8
    ensures IsOctal(OctalDigit(n)) && OctalDigit(n) as int - '0' as int == n
  {
    assert n in [0, 1, 2, 3, 4, 5, 6, 7];
  }

  lemma QuotedByteIsOneUnit(b: Byte, rest: string, encode: Encoding)
    requires KeepsAscii(encode)
    ensures Unit(QuoteByte(b) + rest, encode) == (Some([b]), |QuoteByte(b)|)
  {
    var q := QuoteByte(b);
    if |q| == 4 {
      OctalComesBack(b);
      assert (q + rest)[1..4] == [OctalDigit(b / 64), OctalDigit(b / 8 % 8), OctalDigit(b % 8)];
    }
  }

  lemma {:induction false} QuotedBytesComeBack(path: Bytes, encode: Encoding)
    requires KeepsAscii(encode)
    ensures DecodeBody(QuoteBytes(path), encode) == Some(path)
  {
    if path != [] {
      var q, rest := QuoteByte(path[0]), QuoteBytes(path[1..]);
      QuotedBytesComeBack(path[1..], encode);
      QuotedByteIsOneUnit(path[0], rest, encode);
      assert From(q + rest, |q|) == rest;
      assert [path[0]] + path[1..] == path;
    }
  }

  /** Decoding inverts C-quoting for every byte string. */
  lemma DecodingInvertsQuoting(path: Bytes, encode: Encoding)
    requires KeepsAscii(encode)
    ensures DecodePath(Quote(path), encode) == Some(path)
  {
    QuotedBytesComeBack(path, encode);
    var q := Quote(path);
    assert q[1..|q| - 1] == QuoteBytes(path);
  }

  lemma {:induction false} RawTextComesBack(path: Bytes, encode: Encoding)
    requires KeepsAscii(encode) && !NeedsQuotes(path)
    ensures EncodeText(RawText(path), encode) == path
  {
    if path != [] {
      assert RawText(path)[1..] == RawText(path[1..]);
      forall i | 0 <= i < |path[1..]| ensures path[1..][i] == path[i + 1] {}
      RawTextComesBack(path[1..], encode);
    }
  }

  lemma PrintedPathComesBack(path: Bytes, encode: Encoding)
    requires KeepsAscii(encode) && !Lost(path)
    ensures DecodePath(PrintPath(path), encode) == Some(path)
  {
    if NeedsQuotes(path) {
      assert PrintPath(path) == Quote(path);
      DecodingInvertsQuoting(path, encode);
    } else {
      var raw := RawText(path);
      RawTextComesBack(path, encode);
      if path != [] { assert raw[0] != '"' && raw[|raw| - 1] != '\t'; }
      var printed := PrintPath(path);
      if 32 in path {
        assert printed == raw + "\t" && printed[..|printed| - 1] == raw;
        assert StripTabs(printed) == StripTabs(raw) == raw;
      } else {
        assert printed == raw;
      }
    }
  }

  /** A quoted name with a tab behind it is read as raw text, quotes and all. */
  lemma QuotedNameBeforeATabIsNotDecoded(path: Bytes, encode: Encoding)
    requires KeepsAscii(encode) && Lost(path)
    ensures DecodePath(PrintPath(path), encode) == Some(EncodeText(Quote(path), encode))
    ensures EncodeText(Quote(path), encode) != [] && EncodeText(Quote(path), encode)[0] == '"' as int
  {
    var q := Quote(path);
    assert PrintPath(path) == q + "\t";
    assert (q + "\t")[..|q|] == q && q[|q| - 1] == '"';
    assert StripTabs(q + "\t") == StripTabs(q) == q;
    assert encode(q[0]) == [q[0] as int];
  }

  lemma {:induction false} EncodedInTwoSteps(a: string, b: string, encode: Encoding)
    ensures EncodeText(a + b, encode) == EncodeText(a, encode) + EncodeText(b, encode)
  {
    if a == "" {
      assert a + b == b;
    } else {
      assert (a + b)[1..] == a[1..] + b;
      EncodedInTwoSteps(a[1..], b, encode);
    }
  }

  lemma {:induction false} QuotedTextIsNoShorter(path: Bytes, encode: Encoding)
    requires KeepsAscii(encode)
    ensures |EncodeText(QuoteBytes(path), encode)| >= |path|
  {
    if path != [] {
      QuotedTextIsNoShorter(path[1..], encode);
      EncodedInTwoSteps(QuoteByte(path[0]), QuoteBytes(path[1..]), encode);
      assert QuoteByte(path[0])[0] as int < 128;
    }
  }

  /** A printed path is read back exactly when it is not lost. */
  lemma PrintedPathsAreReadBack(path: Bytes, encode: Encoding)
    requires KeepsAscii(encode)
    ensures DecodePath(PrintPath(path), encode) == Some(path) <==> !Lost(path)
  {
    if Lost(path) {
      QuotedNameBeforeATabIsNotDecoded(path, encode);
      QuotedTextIsNoShorter(path, encode);
      EncodedInTwoSteps("\"", QuoteBytes(path) + "\"", encode);
      EncodedInTwoSteps(QuoteBytes(path), "\"", encode);
      assert Quote(path) == "\"" + (QuoteBytes(path) + "\"");
      assert EncodeText("\"", encode) == encode('"') + EncodeText("", encode);
    } else {
      PrintedPathComesBack(path, encode);
    }
  }

  // ------------------------------------------------------------------- reading

  type Changed = map<Bytes, set<nat>>

  datatype Reader = Reader(changed: Changed, current: Option<Bytes>)

  function Ascii(s: string): Bytes
    requires forall i :: 0 <= i < |s| ==> s[i] as int < 128
  {
    seq(|s|, i requires 0 <= i < |s| => s[i] as int)
  }

  /** The path below apps/bcs/, for a target in the new tree. */
  function Relative(target: Bytes): Option<Bytes> {
    if Ascii("b/") <= target && Ascii("apps/bcs/") <= target[2..] then Some(target[11..]) else None
  }

  function Digits(s: string): string {
    if s != "" && '0' <= s[0] <= '9' then [s[0]] + Digits(s[1..]) else ""
  }

  lemma {:induction false} DigitsAreNumbers(s: string)
    ensures |Digits(s)| <= |s| && forall i :: 0 <= i < |Digits(s)| ==> '0' <= Digits(s)[i] <= '9'
  {
    if s != "" { DigitsAreNumbers(s[1..]); }
  }

  /** int() of a run of digits. */
  function Number(s: string): nat { OrElse(ParseNat(s), 0) }

  /** The pattern `+start` or `+start,count` at the front of a text; the count is 1 when left out. */
  function RangeAt(s: string): Option<(nat, nat)> {
    if s == "" || s[0] != '+' || Digits(s[1..]) == "" then None
    else
      var start := Digits(s[1..]);
      DigitsAreNumbers(s[1..]);
      var rest := s[1 + |start|..];
      if rest != "" && rest[0] == ',' && Digits(rest[1..]) != "" then Some((Number(start), Number(Digits(rest[1..]))))
      else Some((Number(start), 1))
  }

  /** The leftmost place where the pattern fits. */
  function SearchRange(s: string): Option<(nat, nat)> {
    if s == "" then None
    else if RangeAt(s).Some? then RangeAt(s)
    else SearchRange(s[1..])
  }

  function Lines(start: nat, count: nat): (r: set<nat>)
    ensures forall n :: n in r <==> start <= n < start + count
    decreases count
  {
    if count == 0 then {} else {start} + Lines(start + 1, count - 1)
  }

  function AddRange(changed: Changed, path: Bytes, start: nat, count: nat): Changed {
    if count == 0 then changed
    else changed[path := (if path in changed then changed[path] else {}) + Lines(start, count)]
  }

  /** None when decoding a path raises. */
  function ReadLine(r: Reader, line: string, encode: Encoding): Option<Reader> {
    if "+++ " <= line then
      var target := DecodePath(line[4..], encode);
      if target.None? then None else Some(r.(current := Relative(target.value)))
    else if r.current.None? || !("@@ " <= line) then Some(r)
    else
      match SearchRange(line)
      case None => Some(r)
      case Some((start, count)) => Some(r.(changed := AddRange(r.changed, r.current.value, start, count)))
  }

  function ReadLines(r: Reader, lines: seq<string>, encode: Encoding): Option<Reader>
    decreases |lines|
  {
    if lines == [] then Some(r)
    else
      var next := ReadLine(r, lines[0], encode);
      if next.None? then None else ReadLines(next.value, lines[1..], encode)
  }

  const START := Reader(map[], None)

  /** Lines end with a newline here; a last line may lack it. */
  function SplitLines(text: string): seq<string> {
    var parts := Split(text, '\n');
    if parts[|parts| - 1] == "" then parts[..|parts| - 1] else parts
  }

  method ParseDiff(text: string, encode: Encoding) returns (changed: Option<Changed>)
    ensures var r := ReadLines(START, SplitLines(text), encode);
            changed == if r.None? then None else Some(r.value.changed)
  {
    var added: Changed := map[];
    var current: Option<Bytes> := None;
    var lines := SplitLines(text);
    for i := 0 to |lines|
      invariant ReadLines(START, lines, encode) == ReadLines(Reader(added, current), lines[i..], encode)
    {
      assert lines[i..][1..] == lines[i + 1..];
      var line := lines[i];
      if "+++ " <= line {
        var target := DecodeGitPath(line[4..], encode);
        if target.None? { return None; }
        if Ascii("b/") <= target.value && Ascii("apps/bcs/") <= target.value[2..] {
          current := Some(target.value[11..]);
        } else {
          current := None;
        }
        continue;
      }
      if current.None? || !("@@ " <= line) { continue; }
      var found := SearchRange(line);
      if found.None? { continue; }
      var (start, count) := found.value;
      if count != 0 {
        var before := if current.value in added then added[current.value] else {};
        added := added[current.value := before + Lines(start, count)];
      }
    }
    changed := Some(added);
  }

  // ------------------------------------------------------------------ printing

  datatype Hunk = Hunk(oldStart: nat, newStart: nat, context: string, removed: seq<string>, added: seq<string>,
                       oldLacksNewline: bool, newLacksNewline: bool)

  /** `preamble` is all that stands before the `+++` line; a deleted file has no path; a mode change has no hunks. */
  datatype FileDiff = FileDiff(preamble: seq<string>, path: Option<Bytes>, hunks: seq<Hunk>)

  function PrintRange(start: nat, count: nat): string {
    PrintNat(start) + if count == 1 then "" else "," + PrintNat(count)
  }

  function HunkHeader(h: Hunk): string {
    "@@ -" + PrintRange(h.oldStart, |h.removed|) + " +" + PrintRange(h.newStart, |h.added|) + " @@"
    + if h.context == "" then "" else " " + h.context
  }

  function Marked(mark: char, contents: seq<string>, lacksNewline: bool): seq<string> {
    seq(|contents|, i requires 0 <= i < |contents| => [mark] + contents[i])
    + if lacksNewline then ["\\ No newline at end of file"] else []
  }

  function HunkLines(h: Hunk): seq<string> {
    [HunkHeader(h)] + (Marked('-', h.removed, h.oldLacksNewline) + Marked('+', h.added, h.newLacksNewline))
  }

  function HunksLines(hunks: seq<Hunk>): seq<string> {
    if hunks == [] then [] else HunkLines(hunks[0]) + HunksLines(hunks[1..])
  }

  function TargetLine(path: Option<Bytes>): string {
    "+++ " + if path.Some? then PrintPath(Ascii("b/") + path.value) else "/dev/null"
  }

  function FileLines(f: FileDiff): seq<string> {
    f.preamble + if f.hunks == [] then [] else [TargetLine(f.path)] + HunksLines(f.hunks)
  }

  function DiffLines(files: seq<FileDiff>): seq<string> {
    if files == [] then [] else FileLines(files[0]) + DiffLines(files[1..])
  }

  /** A line the reader passes over. */
  predicate Inert(line: string) { !("+++ " <= line) && !("@@ " <= line) }

  /** The path of a file of the diff, below apps/bcs/. */
  function Below(path: Option<Bytes>): Option<Bytes> {
    if path.Some? && Ascii("apps/bcs/") <= path.value then Some(path.value[9..]) else None
  }

  /** The path that a file's own target line puts in force: none for a lost name. */
  function Announced(path: Option<Bytes>): Option<Bytes> {
    if path.Some? && Lost(path.value) then None else Below(path)
  }

  // ------------------------------------------------------- the path in force

  /** An added line `++ t` prints as `+++ t`: a target line to the reader. None where its target does not decode. */
  function AfterAdded(current: Option<Bytes>, added: seq<string>, encode: Encoding): Option<Option<Bytes>>
    decreases |added|
  {
    if added == [] then Some(current)
    else if !("++ " <= added[0]) then AfterAdded(current, added[1..], encode)
    else
      var target := DecodePath(added[0][3..], encode);
      if target.None? then None else AfterAdded(Relative(target.value), added[1..], encode)
  }

  /** The path in force behind some hunks; None when one of their added lines raises. */
  function AfterHunks(current: Option<Bytes>, hunks: seq<Hunk>, encode: Encoding): Option<Option<Bytes>>
    decreases |hunks|
  {
    if hunks == [] then Some(current)
    else
      var next := AfterAdded(current, hunks[0].added, encode);
      if next.None? then None else AfterHunks(next.value, hunks[1..], encode)
  }

  ghost predicate InHunk(h: Hunk, n: nat) { h.newStart <= n < h.newStart + |h.added| }

  /** Some hunk that adds line n is read while q is in force. */
  ghost predicate ReadAs(current: Option<Bytes>, hunks: seq<Hunk>, encode: Encoding, q: Bytes, n: nat) {
    exists j :: 0 <= j < |hunks| && InHunk(hunks[j], n) && AfterHunks(current, hunks[..j], encode) == Some(Some(q))
  }

  /** Every hunk with added lines is read under the path of its own file, and nothing raises. */
  ghost predicate KeepsItsPath(f: FileDiff, encode: Encoding) {
    && AfterHunks(Announced(f.path), f.hunks, encode).Some?
    && forall j :: 0 <= j < |f.hunks| && f.hunks[j].added != [] ==>
         AfterHunks(Announced(f.path), f.hunks[..j], encode) == Some(Below(f.path))
  }

  ghost predicate HasInertPreamble(f: FileDiff) { forall l :: l in f.preamble ==> Inert(l) }

  // ------------------------------------------------------------- reading hunks

  lemma {:induction false} PrintedDigits(n: nat, rest: string)
    requires rest == "" || !('0' <= rest[0] <= '9')
    ensures Digits(PrintNat(n) + rest) == PrintNat(n) && Number(PrintNat(n)) == n && '+' !in PrintNat(n)
  {
    PrintedNatsAreReadBack(n);
    PrintNatHasDigits(n);
    DigitsOfRun(PrintNat(n), rest);
  }

  lemma {:induction false} PrintNatHasDigits(n: nat)
    ensures forall i :: 0 <= i < |PrintNat(n)| ==> '0' <= PrintNat(n)[i] <= '9'
  {
    if n >= 10 { PrintNatHasDigits(n / 10); }
  }

  lemma {:induction false} DigitsOfRun(run: string, rest: string)
    requires forall i :: 0 <= i < |run| ==> '0' <= run[i] <= '9'
    requires rest == "" || !('0' <= rest[0] <= '9')
    ensures Digits(run + rest) == run
  {
    if run == "" {
      assert run + rest == rest;
    } else {
      assert (run + rest)[1..] == run[1..] + rest;
      DigitsOfRun(run[1..], rest);
    }
  }

  lemma {:induction false} SearchSkips(skipped: string, s: string)
    requires '+' !in skipped
    ensures SearchRange(skipped + s) == SearchRange(s)
  {
    if skipped == "" {
      assert skipped + s == s;
    } else {
      assert (skipped + s)[1..] == skipped[1..] + s;
      SearchSkips(skipped[1..], s);
    }
  }

  lemma RangeIsReadBack(start: nat, count: nat, rest: string)
    requires rest != "" && rest[0] == ' '
    ensures RangeAt("+" + (PrintRange(start, count) + rest)) == Some((start, count))
    ensures '+' !in PrintRange(start, count)
  {
    hide ParseNat, PrintNat, Digits, Number;
    var first, tail := PrintNat(start), (if count == 1 then "" else "," + PrintNat(count)) + rest;
    var s := "+" + (PrintRange(start, count) + rest);
    assert s[1..] == first + tail;
    PrintedDigits(start, tail);
    PrintedDigits(count, rest);
    PrintedNatsAreReadBack(start);
    assert s[1 + |first|..] == tail;
    if count != 1 {
      assert tail[1..] == PrintNat(count) + rest;
      PrintedNatsAreReadBack(count);
    }
  }

  lemma HunkHeaderIsReadBack(h: Hunk)
    ensures SearchRange(HunkHeader(h)) == Some((h.newStart, |h.added|))
  {
    hide RangeAt, PrintRange;
    var end := " @@" + if h.context == "" then "" else " " + h.context;
    RangeIsReadBack(h.oldStart, |h.removed|, " ");
    RangeIsReadBack(h.newStart, |h.added|, end);
    var front := "@@ -" + PrintRange(h.oldStart, |h.removed|) + " ";
    var back := "+" + (PrintRange(h.newStart, |h.added|) + end);
    assert HunkHeader(h) == front + back;
    SearchSkips(front, back);
  }

  lemma {:induction false} InertLinesAreSkipped(r: Reader, lines: seq<string>, encode: Encoding)
    requires forall l :: l in lines ==> Inert(l)
    ensures ReadLines(r, lines, encode) == Some(r)
    decreases |lines|
  {
    if lines != [] {
      assert lines[0] in lines;
      InertLinesAreSkipped(r, lines[1..], encode);
    }
  }

  lemma {:induction false} ReadInTwoSteps(r: Reader, a: seq<string>, b: seq<string>, encode: Encoding)
    ensures var mid := ReadLines(r, a, encode);
            ReadLines(r, a + b, encode) == if mid.None? then None else ReadLines(mid.value, b, encode)
    decreases |a|
  {
    if a == [] {
      assert a + b == b;
    } else {
      assert (a + b)[1..] == a[1..] + b;
      var next := ReadLine(r, a[0], encode);
      if next.Some? { ReadInTwoSteps(next.value, a[1..], b, encode); }
    }
  }

  lemma {:induction false} AddedLinesAreRead(r: Reader, added: seq<string>, lacksNewline: bool, encode: Encoding)
    ensures var next := AfterAdded(r.current, added, encode);
            ReadLines(r, Marked('+', added, lacksNewline), encode) == if next.None? then None else Some(r.(current := next.value))
    decreases |added|
  {
    var lines := Marked('+', added, lacksNewline);
    if added == [] {
      assert forall l :: l in lines ==> l[0] == '\\';
      forall l | l in lines ensures Inert(l) { assert "+++ "[0] == '+' && "@@ "[0] == '@'; }
      InertLinesAreSkipped(r, lines, encode);
    } else {
      hide DecodePath, SearchRange;
      var line := "+" + added[0];
      assert lines[0] == line && lines[1..] == Marked('+', added[1..], lacksNewline);
      assert line[1..] == added[0] && line[0] == '+';
      assert "+++ "[1..] == "++ ";
      assert "+++ " <= line <==> "++ " <= added[0];
      assert "+++ " <= line ==> line[4..] == added[0][3..];
      var next := ReadLine(r, line, encode);
      if next.Some? { AddedLinesAreRead(next.value, added[1..], lacksNewline, encode); }
    }
  }

  /** A hunk counts under the path in force; then its added lines may change that path. */
  lemma HunkIsRead(r: Reader, h: Hunk, encode: Encoding)
    ensures var next := AfterAdded(r.current, h.added, encode);
            ReadLines(r, HunkLines(h), encode) == if next.None? then None else Some(Reader(Counted(r, h), next.value))
  {
    hide SearchRange, AddRange, DecodePath, AfterAdded;
    HunkHeaderIsReadBack(h);
    var header, removed, added := HunkHeader(h), Marked('-', h.removed, h.oldLacksNewline), Marked('+', h.added, h.newLacksNewline);
    assert "@@ " <= header;
    assert header[0] == '@' && "+++ "[0] == '+';
    var counted := Reader(Counted(r, h), r.current);
    assert ReadLine(r, header, encode) == Some(counted);
    forall l | l in removed ensures Inert(l) { assert l[0] != '+' && l[0] != '@'; }
    InertLinesAreSkipped(counted, removed, encode);
    ReadInTwoSteps(counted, removed, added, encode);
    AddedLinesAreRead(counted, h.added, h.newLacksNewline, encode);
    assert ([header] + (removed + added))[1..] == removed + added;
  }

  function Counted(r: Reader, h: Hunk): Changed {
    if r.current.None? then r.changed else AddRange(r.changed, r.current.value, h.newStart, |h.added|)
  }

  // -------------------------------------------------------------------- results

  ghost predicate Has(changed: Changed, path: Bytes, n: nat) { path in changed && n in changed[path] }

  ghost predicate InHunks(hunks: seq<Hunk>, n: nat) {
    exists j :: 0 <= j < |hunks| && InHunk(hunks[j], n)
  }

  /** The line is among the added lines that the diff shows for the path below apps/bcs/. */
  ghost predicate IsAddedLine(files: seq<FileDiff>, path: Bytes, n: nat) {
    exists i :: 0 <= i < |files| && files[i].path == Some(Ascii("apps/bcs/") + path) && InHunks(files[i].hunks, n)
  }

  ghost predicate NoEmptySets(changed: Changed) { forall p :: p in changed ==> changed[p] != {} }

  lemma RangeIsAdded(changed: Changed, path: Bytes, start: nat, count: nat, q: Bytes, n: nat)
    ensures Has(AddRange(changed, path, start, count), q, n) <==> Has(changed, q, n) || (q == path && start <= n < start + count)
  {
  }

  lemma RangesAreNotEmpty(changed: Changed, path: Bytes, start: nat, count: nat)
    requires NoEmptySets(changed)
    ensures NoEmptySets(AddRange(changed, path, start, count))
  {
    if count > 0 { assert start in Lines(start, count); }
  }

  lemma HunkIsCounted(r: Reader, h: Hunk)
    requires NoEmptySets(r.changed)
    ensures NoEmptySets(Counted(r, h))
    ensures forall q, n :: Has(Counted(r, h), q, n) <==> Has(r.changed, q, n) || (r.current == Some(q) && InHunk(h, n))
  {
    if r.current.Some? {
      RangesAreNotEmpty(r.changed, r.current.value, h.newStart, |h.added|);
      hide AddRange, Has;
      forall q, n: nat ensures Has(Counted(r, h), q, n) <==> Has(r.changed, q, n) || (r.current == Some(q) && InHunk(h, n)) {
        RangeIsAdded(r.changed, r.current.value, h.newStart, |h.added|, q, n);
      }
    }
  }

  /** Reading hunks raises where a target among the added lines does not decode, and else counts each under the path in force. */
  lemma {:induction false} HunksAreRead(r: Reader, hunks: seq<Hunk>, encode: Encoding)
    requires NoEmptySets(r.changed)
    ensures var result, next := ReadLines(r, HunksLines(hunks), encode), AfterHunks(r.current, hunks, encode);
            && (result.Some? <==> next.Some?)
            && (result.Some? ==>
                  && result.value.current == next.value && NoEmptySets(result.value.changed)
                  && forall q, n :: Has(result.value.changed, q, n) <==> Has(r.changed, q, n) || ReadAs(r.current, hunks, encode, q, n))
    decreases |hunks|
  {
    if hunks != [] {
      hide Counted, HunkLines, Has, ReadAs, InHunk, AfterAdded;
      var h := hunks[0];
      HunkIsRead(r, h, encode);
      HunkIsCounted(r, h);
      ReadInTwoSteps(r, HunkLines(h), HunksLines(hunks[1..]), encode);
      var next := AfterAdded(r.current, h.added, encode);
      if next.Some? {
        HunksAreRead(Reader(Counted(r, h), next.value), hunks[1..], encode);
        forall q, n: nat ensures ReadAs(r.current, hunks, encode, q, n)
                         <==> (r.current == Some(q) && InHunk(h, n)) || ReadAs(next.value, hunks[1..], encode, q, n)
        {
          ReadAsSplits(r.current, hunks, encode, q, n);
        }
      }
    } else {
      assert forall q, n :: !ReadAs(r.current, hunks, encode, q, n);
    }
  }

  lemma ReadAsSplits(current: Option<Bytes>, hunks: seq<Hunk>, encode: Encoding, q: Bytes, n: nat)
    requires hunks != [] && AfterAdded(current, hunks[0].added, encode).Some?
    ensures var next := AfterAdded(current, hunks[0].added, encode);
            ReadAs(current, hunks, encode, q, n)
            <==> (current == Some(q) && InHunk(hunks[0], n)) || ReadAs(next.value, hunks[1..], encode, q, n)
  {
    hide AfterAdded, InHunk;
    var next := AfterAdded(current, hunks[0].added, encode).value;
    if ReadAs(current, hunks, encode, q, n) {
      var j :| 0 <= j < |hunks| && InHunk(hunks[j], n) && AfterHunks(current, hunks[..j], encode) == Some(Some(q));
      if j > 0 { assert hunks[1..][j - 1] == hunks[j] && hunks[..j][1..] == hunks[1..][..j - 1]; }
    }
    if current == Some(q) && InHunk(hunks[0], n) { assert hunks[..0] == []; }
    if ReadAs(next, hunks[1..], encode, q, n) {
      var j :| 0 <= j < |hunks[1..]| && InHunk(hunks[1..][j], n) && AfterHunks(next, hunks[1..][..j], encode) == Some(Some(q));
      assert hunks[j + 1] == hunks[1..][j] && hunks[..j + 1][1..] == hunks[1..][..j];
    }
  }

  /** The target line sets the current path of files below apps/bcs/ whose names are not lost, and no other. */
  lemma TargetIsRead(r: Reader, path: Option<Bytes>, encode: Encoding)
    requires KeepsAscii(encode)
    ensures ReadLine(r, TargetLine(path), encode) ==
            Some(r.(current := Announced(path)))
  {
    hide DecodePath, PrintPath, NeedsQuotes;
    var line := TargetLine(path);
    assert line[..4] == "+++ ";
    if path.Some? {
      var target := Ascii("b/") + path.value;
      LostBelowB(path.value);
      assert line[4..] == PrintPath(target);
      assert target[2..] == path.value;
      if Lost(path.value) {
        QuotedNameBeforeATabIsNotDecoded(target, encode);
        assert Ascii("b/")[0] == 'b' as int;
      } else {
        PrintedPathComesBack(target, encode);
        if Ascii("apps/bcs/") <= path.value { assert target[11..] == path.value[9..]; }
      }
    } else {
      DevNullIsRaw(encode);
      assert line[4..] == "/dev/null";
    }
  }

  lemma LostBelowB(path: Bytes)
    ensures Lost(Ascii("b/") + path) <==> Lost(path)
  {
    var target := Ascii("b/") + path;
    assert target[0] == 'b' as int && target[1] == '/' as int;
    assert forall i :: 0 <= i < |path| ==> target[i + 2] == path[i];
    if NeedsQuotes(target) {
      var i :| 0 <= i < |target| && (target[i] < 32 || target[i] >= 127 || target[i] in [34, 92]);
      assert path[i - 2] == target[i];
    }
  }

  lemma DevNullIsRaw(encode: Encoding)
    requires KeepsAscii(encode)
    ensures DecodePath("/dev/null", encode).Some? && Relative(DecodePath("/dev/null", encode).value).None?
  {
    var s := "/dev/null";
    assert StripTabs(s) == s;
    assert EncodeText(s, encode) == encode('/') + EncodeText(s[1..], encode);
    assert encode('/') == ['/' as int];
    assert Ascii("b/")[0] == 'b' as int;
  }

  lemma FileIsRead(r: Reader, f: FileDiff, encode: Encoding)
    requires KeepsAscii(encode) && HasInertPreamble(f) && NoEmptySets(r.changed)
    ensures var result := ReadLines(r, FileLines(f), encode);
            && (result.Some? <==> AfterHunks(Announced(f.path), f.hunks, encode).Some?)
            && (result.Some? ==>
                  && NoEmptySets(result.value.changed)
                  && forall q, n :: Has(result.value.changed, q, n) <==>
                       Has(r.changed, q, n) || ReadAs(Announced(f.path), f.hunks, encode, q, n))
  {
    hide HunksLines, TargetLine, ReadLine, Has, InHunk, Below, KeepsAscii;
    InertLinesAreSkipped(r, f.preamble, encode);
    var rest := if f.hunks == [] then [] else [TargetLine(f.path)] + HunksLines(f.hunks);
    ReadInTwoSteps(r, f.preamble, rest, encode);
    if f.hunks != [] {
      TargetIsRead(r, f.path, encode);
      assert rest[1..] == HunksLines(f.hunks);
      HunksAreRead(r.(current := Announced(f.path)), f.hunks, encode);
    }
  }

  lemma UnderPrefix(path: Option<Bytes>, q: Bytes)
    ensures Below(path) == Some(q) <==> path == Some(Ascii("apps/bcs/") + q)
  {
    var prefix := Ascii("apps/bcs/");
    assert (prefix + q)[9..] == q && (prefix + q)[..9] == prefix;
    if path.Some? && prefix <= path.value { assert path.value == prefix + path.value[9..]; }
  }

  /** The line is read under the path in some file of the diff. */
  ghost predicate IsReadLine(files: seq<FileDiff>, encode: Encoding, q: Bytes, n: nat) {
    exists i :: 0 <= i < |files| && ReadAs(Announced(files[i].path), files[i].hunks, encode, q, n)
  }

  lemma {:induction false} FilesAreRead(r: Reader, files: seq<FileDiff>, encode: Encoding)
    requires KeepsAscii(encode) && (forall f :: f in files ==> HasInertPreamble(f)) && NoEmptySets(r.changed)
    ensures var result := ReadLines(r, DiffLines(files), encode);
            && (result.Some? <==> forall f :: f in files ==> AfterHunks(Announced(f.path), f.hunks, encode).Some?)
            && (result.Some? ==>
                  && NoEmptySets(result.value.changed)
                  && forall q, n :: Has(result.value.changed, q, n) <==> Has(r.changed, q, n) || IsReadLine(files, encode, q, n))
    decreases |files|
  {
    if files != [] {
      hide FileLines, Has, HasInertPreamble, IsReadLine, KeepsAscii, ReadAs, AfterHunks, Below;
      var f := files[0];
      FileIsRead(r, f, encode);
      ReadInTwoSteps(r, FileLines(f), DiffLines(files[1..]), encode);
      assert forall g :: g in files <==> g == f || g in files[1..];
      var next := ReadLines(r, FileLines(f), encode);
      if next.Some? {
        FilesAreRead(next.value, files[1..], encode);
        forall q, n ensures IsReadLine(files, encode, q, n) <==>
                  ReadAs(Announced(f.path), f.hunks, encode, q, n) || IsReadLine(files[1..], encode, q, n)
        {
          ReadLinesSplit(files, encode, q, n);
        }
      }
    }
  }

  lemma ReadLinesSplit(files: seq<FileDiff>, encode: Encoding, q: Bytes, n: nat)
    requires files != []
    ensures IsReadLine(files, encode, q, n) <==>
            ReadAs(Announced(files[0].path), files[0].hunks, encode, q, n) || IsReadLine(files[1..], encode, q, n)
  {
    hide ReadAs, Below;
    if IsReadLine(files, encode, q, n) {
      var i :| 0 <= i < |files| && ReadAs(Announced(files[i].path), files[i].hunks, encode, q, n);
      if i > 0 { assert files[1..][i - 1] == files[i]; }
    }
    if IsReadLine(files[1..], encode, q, n) {
      var i :| 0 <= i < |files[1..]| && ReadAs(Announced(files[1..][i].path), files[1..][i].hunks, encode, q, n);
      assert files[i + 1] == files[1..][i];
    }
  }

  /** Lines put together as a text. */
  function Unlines(lines: seq<string>): string {
    if lines == [] then "" else lines[0] + "\n" + Unlines(lines[1..])
  }

  lemma {:induction false} UnlinesIsAJoin(lines: seq<string>)
    ensures Unlines(lines) == Join(lines + [""], '\n')
  {
    if lines != [] {
      UnlinesIsAJoin(lines[1..]);
      assert (lines + [""])[1..] == lines[1..] + [""];
    }
  }

  function ReadDiff(files: seq<FileDiff>, encode: Encoding): Option<Changed> {
    var r := ReadLines(START, SplitLines(Unlines(DiffLines(files))), encode);
    if r.None? then None else Some(r.value.changed)
  }

  /**
   * What reading a printed diff returns for every content of its added lines: it
   * raises exactly when an added line `++ t` has a target t that does not
   * decode, and else each hunk counts under the path that the last target line
   * before it put in force, be it the file's own or an added line. A file with
   * a lost name puts none in force.
   */
  lemma ReadingCountsUnderThePathInForce(files: seq<FileDiff>, encode: Encoding)
    requires KeepsAscii(encode) && (forall f :: f in files ==> HasInertPreamble(f))
    requires forall l :: l in DiffLines(files) ==> '\n' !in l
    ensures var r := ReadDiff(files, encode);
            && (r.Some? <==> forall f :: f in files ==> AfterHunks(Announced(f.path), f.hunks, encode).Some?)
            && (r.Some? ==>
                  && NoEmptySets(r.value)
                  && forall q, n :: Has(r.value, q, n) <==> IsReadLine(files, encode, q, n))
  {
    var lines := DiffLines(files);
    UnlinesIsAJoin(lines);
    SplitUndoesJoin(lines + [""], '\n');
    assert (lines + [""])[..|lines|] == lines;
    FilesAreRead(START, files, encode);
    hide ReadLines, DiffLines, IsReadLine;
    assert forall q, n :: !Has(START.changed, q, n);
  }

  lemma OwnPathReadsAllHunks(f: FileDiff, encode: Encoding, q: Bytes, n: nat)
    requires KeepsItsPath(f, encode)
    ensures ReadAs(Announced(f.path), f.hunks, encode, q, n) <==> f.path == Some(Ascii("apps/bcs/") + q) && InHunks(f.hunks, n)
  {
    hide AfterHunks, Below;
    UnderPrefix(f.path, q);
  }

  lemma KeptPathsReadTheAddedLines(files: seq<FileDiff>, encode: Encoding, q: Bytes, n: nat)
    requires forall f :: f in files ==> KeepsItsPath(f, encode)
    ensures IsReadLine(files, encode, q, n) <==> IsAddedLine(files, q, n)
  {
    hide KeepsItsPath, ReadAs, InHunks, Below;
    forall i | 0 <= i < |files|
      ensures ReadAs(Announced(files[i].path), files[i].hunks, encode, q, n)
              <==> files[i].path == Some(Ascii("apps/bcs/") + q) && InHunks(files[i].hunks, n)
    {
      assert files[i] in files;
      OwnPathReadsAllHunks(files[i], encode, q, n);
    }
  }

  /** No entry is empty, and the entries are the added lines of the files below apps/bcs/. */
  ghost predicate ReadsRight(files: seq<FileDiff>, encode: Encoding) {
    var r := ReadDiff(files, encode);
    r.Some? && NoEmptySets(r.value) && forall q, n :: Has(r.value, q, n) <==> IsAddedLine(files, q, n)
  }

  /**
   * Reading a printed diff returns exactly the added lines of each file below
   * apps/bcs/, and an entry only for files with such lines, when every file
   * keeps its path.
   */
  lemma ReadingUndoesPrinting(files: seq<FileDiff>, encode: Encoding)
    requires KeepsAscii(encode) && (forall f :: f in files ==> HasInertPreamble(f) && KeepsItsPath(f, encode))
    requires forall l :: l in DiffLines(files) ==> '\n' !in l
    ensures ReadsRight(files, encode)
  {
    ReadingCountsUnderThePathInForce(files, encode);
    hide KeepsAscii, HasInertPreamble, KeepsItsPath, ReadDiff, DiffLines, Has, NoEmptySets, IsReadLine, IsAddedLine, AfterHunks, Below;
    forall q, n ensures IsReadLine(files, encode, q, n) <==> IsAddedLine(files, q, n) {
      KeptPathsReadTheAddedLines(files, encode, q, n);
    }
  }

  /** A file below apps/bcs/ with a lost name and added lines. */
  ghost predicate LosesLines(f: FileDiff) {
    Below(f.path).Some? && Lost(f.path.value) && exists j :: 0 <= j < |f.hunks| && f.hunks[j].added != []
  }

  ghost predicate HasPlainLines(f: FileDiff) {
    forall h, a :: h in f.hunks && a in h.added ==> !("++ " <= a)
  }

  /** Without an added line that starts with `++ ` a file keeps its path exactly when it has no added lines to lose. */
  lemma WithoutTargetsThePathIsKept(f: FileDiff, encode: Encoding)
    requires HasPlainLines(f)
    ensures KeepsItsPath(f, encode) <==> !LosesLines(f)
  {
    hide Below, Lost;
    forall j | 0 <= j <= |f.hunks| ensures AfterHunks(Announced(f.path), f.hunks[..j], encode) == Some(Announced(f.path)) {
      PlainHunksKeepThePath(Announced(f.path), f.hunks[..j], encode);
    }
    assert f.hunks[..|f.hunks|] == f.hunks;
    OnlyLostNamesAreNotAnnounced(f.path);
    if LosesLines(f) {
      var j :| 0 <= j < |f.hunks| && f.hunks[j].added != [];
      assert AfterHunks(Announced(f.path), f.hunks[..j], encode) != Some(Below(f.path));
    }
  }

  lemma OnlyLostNamesAreNotAnnounced(path: Option<Bytes>)
    ensures Below(path).Some? ==> path.Some? && Announced(path) == if Lost(path.value) then None else Below(path)
    ensures Below(path).None? ==> Announced(path).None?
  {
  }

  /**
   * Diffs without added lines that start with `++ ` are read right exactly when
   * no file below apps/bcs/ that adds lines has a name with a blank and a
   * character that must be quoted.
   */
  lemma PlainDiffsAreReadRightExactlyWithoutLostNames(files: seq<FileDiff>, encode: Encoding)
    requires KeepsAscii(encode) && (forall f :: f in files ==> HasInertPreamble(f) && HasPlainLines(f))
    requires forall l :: l in DiffLines(files) ==> '\n' !in l
    ensures ReadsRight(files, encode) <==> forall f :: f in files ==> !LosesLines(f)
  {
    hide KeepsAscii, HasInertPreamble, HasPlainLines, KeepsItsPath, LosesLines, DiffLines, ReadDiff, Has, NoEmptySets;
    if forall f :: f in files ==> !LosesLines(f) {
      forall f | f in files ensures KeepsItsPath(f, encode) { WithoutTargetsThePathIsKept(f, encode); }
      ReadingUndoesPrinting(files, encode);
    } else if ReadsRight(files, encode) {
      ReadingCountsUnderThePathInForce(files, encode);
      var f :| f in files && LosesLines(f);
      LostLinesAreNotRead(files, f, encode);
    }
  }

  /** Nothing counts the added lines of a lost file under its path. */
  lemma LostLinesAreNotRead(files: seq<FileDiff>, f: FileDiff, encode: Encoding)
    requires (forall g :: g in files ==> HasPlainLines(g)) && f in files && LosesLines(f)
    ensures exists q, n :: IsAddedLine(files, q, n) && !IsReadLine(files, encode, q, n)
  {
    hide Lost, HasPlainLines, AfterHunks;
    var q := Below(f.path).value;
    var j :| 0 <= j < |f.hunks| && f.hunks[j].added != [];
    var n := f.hunks[j].newStart;
    UnderPrefix(f.path, q);
    assert InHunk(f.hunks[j], n) && InHunks(f.hunks, n);
    var i :| 0 <= i < |files| && files[i] == f;
    assert IsAddedLine(files, q, n);
    hide Below, InHunk;
    if IsReadLine(files, encode, q, n) {
      var k :| 0 <= k < |files| && ReadAs(Announced(files[k].path), files[k].hunks, encode, q, n);
      var g := files[k];
      var l :| 0 <= l < |g.hunks| && InHunk(g.hunks[l], n) && AfterHunks(Announced(g.path), g.hunks[..l], encode) == Some(Some(q));
      PlainPrefix(g, l, encode);
      OnlyLostNamesAreNotAnnounced(g.path);
      UnderPrefix(g.path, q);
      assert false;
    }
  }

  lemma PlainPrefix(f: FileDiff, j: nat, encode: Encoding)
    requires HasPlainLines(f) && j <= |f.hunks|
    ensures AfterHunks(Announced(f.path), f.hunks[..j], encode) == Some(Announced(f.path))
  {
    PlainHunksKeepThePath(Announced(f.path), f.hunks[..j], encode);
  }

  lemma {:induction false} PlainHunksKeepThePath(current: Option<Bytes>, hunks: seq<Hunk>, encode: Encoding)
    requires forall h, a :: h in hunks && a in h.added ==> !("++ " <= a)
    ensures AfterHunks(current, hunks, encode) == Some(current)
  {
    if hunks != [] {
      PlainLinesKeepThePath(current, hunks[0].added, encode);
      PlainHunksKeepThePath(current, hunks[1..], encode);
    }
  }

  lemma {:induction false} PlainLinesKeepThePath(current: Option<Bytes>, added: seq<string>, encode: Encoding)
    requires forall a :: a in added ==> !("++ " <= a)
    ensures AfterAdded(current, added, encode) == Some(current)
  {
    if added != [] {
      assert added[0] in added;
      forall a | a in added[1..] ensures !("++ " <= a) { assert a in added; }
      PlainLinesKeepThePath(current, added[1..], encode);
    }
  }

  ghost predicate Disjoint(hunks: seq<Hunk>) {
    forall i, j, n: nat :: 0 <= i < |hunks| && 0 <= j < |hunks| && InHunk(hunks[i], n) && InHunk(hunks[j], n) ==> i == j
  }

  /**
   * For one file, whose hunks add different lines, the condition is exact for
   * every content: the diff is read right if and only if nothing raises and no
   * hunk with added lines is read under another path, because of a lost name or
   * of an added line that puts another path in force.
   */
  lemma ReadRightExactlyWhenItKeepsItsPath(f: FileDiff, encode: Encoding)
    requires KeepsAscii(encode) && HasInertPreamble(f) && Disjoint(f.hunks)
    requires forall l :: l in DiffLines([f]) ==> '\n' !in l
    ensures ReadsRight([f], encode) <==> KeepsItsPath(f, encode)
  {
    hide HasInertPreamble, DiffLines, ReadDiff, Has, NoEmptySets, KeepsAscii, Disjoint;
    assert f in [f];
    if KeepsItsPath(f, encode) {
      hide KeepsItsPath;
      assert forall g :: g in [f] ==> g == f;
      ReadingUndoesPrinting([f], encode);
    } else if ReadsRight([f], encode) {
      ReadingCountsUnderThePathInForce([f], encode);
      hide AfterHunks, Below, IsReadLine, IsAddedLine, Announced;
      forall j | 0 <= j < |f.hunks| && f.hunks[j].added != []
        ensures AfterHunks(Announced(f.path), f.hunks[..j], encode) == Some(Below(f.path))
      {
        WrongPathShows(f, encode, j);
      }
    }
  }

  /** Where the reader is right, the added lines of hunk j are read under the file's own path. */
  lemma WrongPathShows(f: FileDiff, encode: Encoding, j: nat)
    requires Disjoint(f.hunks) && j < |f.hunks| && f.hunks[j].added != []
    requires AfterHunks(Announced(f.path), f.hunks, encode).Some?
    requires forall q, n :: IsReadLine([f], encode, q, n) <==> IsAddedLine([f], q, n)
    ensures AfterHunks(Announced(f.path), f.hunks[..j], encode) == Some(Below(f.path))
  {
    var own, first, n := Below(f.path), Announced(f.path), f.hunks[j].newStart;
    AfterSomeHunks(first, f.hunks, j, encode);
    hide AfterHunks, Below, Announced;
    var inForce := AfterHunks(first, f.hunks[..j], encode).value;
    assert InHunk(f.hunks[j], n);
    if inForce.Some? {
      assert ReadAs(first, f.hunks, encode, inForce.value, n);
      assert [f][0] == f;
      assert IsReadLine([f], encode, inForce.value, n);
      UnderPrefix(f.path, inForce.value);
    } else if own.Some? {
      UnderPrefix(f.path, own.value);
      assert InHunks(f.hunks, n);
      assert [f][0] == f;
      assert IsAddedLine([f], own.value, n);
    }
  }

  lemma {:induction false} AfterSomeHunks(current: Option<Bytes>, hunks: seq<Hunk>, j: nat, encode: Encoding)
    requires j <= |hunks| && AfterHunks(current, hunks, encode).Some?
    ensures AfterHunks(current, hunks[..j], encode).Some?
    decreases j
  {
    if j > 0 {
      assert hunks[..j][1..] == hunks[1..][..j - 1];
      AfterSomeHunks(AfterAdded(current, hunks[0].added, encode).value, hunks[1..], j - 1, encode);
    }
  }

  /** An added line whose text names no file below apps/bcs/ makes the reader lose every later hunk of its file. */
  lemma AddedPlusPlusLineHidesLaterHunks(r: Reader, h: Hunk, later: seq<Hunk>, encode: Encoding)
    requires NoEmptySets(r.changed) && AfterAdded(r.current, h.added, encode) == Some(None)
    requires forall g, a :: g in later && a in g.added ==> !("++ " <= a)
    ensures var result := ReadLines(r, HunksLines([h] + later), encode);
            && result.Some?
            && forall q, n :: Has(result.value.changed, q, n) <==> Has(r.changed, q, n) || (r.current == Some(q) && InHunk(h, n))
  {
    var hunks := [h] + later;
    assert hunks[1..] == later;
    HunksAreRead(r, hunks, encode);
    PlainHunksKeepThePath(None, later, encode);
    hide Has, InHunk, ReadLines;
    forall q, n ensures ReadAs(r.current, hunks, encode, q, n) <==> r.current == Some(q) && InHunk(h, n) {
      ReadAsSplits(r.current, hunks, encode, q, n);
      forall j | 0 <= j < |later| ensures AfterHunks(None, later[..j], encode) == Some(None) {
        PlainHunksKeepThePath(None, later[..j], encode);
      }
    }
  }

  /** `++ x` is such a line. */
  lemma PlusPlusNamesNoFile(current: Option<Bytes>, encode: Encoding)
    requires KeepsAscii(encode)
    ensures AfterAdded(current, ["++ x"], encode) == Some(None)
  {
    assert "++ x"[3..] == "x" && StripTabs("x") == "x";
    assert EncodeText("x", encode) == encode('x') + EncodeText("", encode);
  }
}
