/** The incremental SSE parser (stream.ts) against a one-shot reading of the whole text. */
module Stream {
  import opened Json
  import opened Rpc
  import opened Translate

  datatype RpcBody = Result(result: Json) | Failure(error: RpcError)

  datatype Envelope = Envelope(id: Json, body: RpcBody)

  /** Trimming and JSON-RPC parsing of one data payload; None for anything that is not an envelope. */
  type EnvelopeParser = string -> Option<Envelope>

  datatype LineReading = Ignored | Event(ev: WireEvent) | Rejected(failure: WireFailure)

  function Holds(m: Fields, key: string): nat { if key in m then 1 else 0 }

  /** A result is an event when it holds exactly one known member, and that is an object. */
  function ExtractMemberEvent(result: Json): Option<WireEvent> {
    if !result.Obj? then None else
    var m := result.fields;
    if Holds(m, "task") + Holds(m, "message") + Holds(m, "statusUpdate") + Holds(m, "artifactUpdate") != 1 then None else
    var (key, kind) := if "task" in m then ("task", Task) else if "message" in m then ("message", Message)
                       else if "statusUpdate" in m then ("statusUpdate", StatusUpdate) else ("artifactUpdate", ArtifactUpdate);
    match m[key]
    case Obj(member) =>
      var metadata := OrElse(ObjAt(member, "metadata"), map[]);
      var seqNo := if Get(metadata, "seq").Num? then Some(Get(metadata, "seq").n) else None;
      Some(WireEvent(seqNo, kind, member, metadata))
    case _ => None
  }

  function MemberKey(kind: MemberKind): string {
    match kind case Task => "task" case Message => "message" case StatusUpdate => "statusUpdate" case ArtifactUpdate => "artifactUpdate"
  }

  /** The result holds this member, as an object, and none of the other three. */
  predicate OnlyMember(m: Fields, kind: MemberKind) {
    && MemberKey(kind) in m && m[MemberKey(kind)].Obj?
    && forall other: MemberKind :: other != kind ==> MemberKey(other) !in m
  }

  /** A result is an event exactly when it has one member alone, and then the event is that member. */
  lemma EventsHaveOneMember(result: Json)
    ensures ExtractMemberEvent(result).Some? <==> result.Obj? && exists kind :: OnlyMember(result.fields, kind)
    ensures ExtractMemberEvent(result).Some? ==>
              var ev := ExtractMemberEvent(result).value;
              OnlyMember(result.fields, ev.kind) && result.fields[MemberKey(ev.kind)] == Obj(ev.member)
  {
    if result.Obj? {
      var m := result.fields;
      forall kind | OnlyMember(m, kind) ensures ExtractMemberEvent(result).Some? {
        forall other: MemberKind | other != kind ensures MemberKey(other) !in m {}
        match kind { case Task => case Message => case StatusUpdate => case ArtifactUpdate => }
        assert MemberKey(Task) == "task" && MemberKey(Message) == "message" && MemberKey(StatusUpdate) == "statusUpdate";
        assert Holds(m, "task") + Holds(m, "message") + Holds(m, "statusUpdate") + Holds(m, "artifactUpdate") == 1 by {
          assert MemberKey(ArtifactUpdate) == "artifactUpdate";
        }
      }
      if ExtractMemberEvent(result).Some? {
        var ev := ExtractMemberEvent(result).value;
        forall other: MemberKind | other != ev.kind ensures MemberKey(other) !in m {
          match other { case Task => case Message => case StatusUpdate => case ArtifactUpdate => }
        }
        assert OnlyMember(m, ev.kind);
      }
    }
  }

  /** An event's metadata and number are those of its member: an object, else empty; a number, else none. */
  predicate IsWhole(ev: WireEvent) {
    && (if "metadata" in ev.member && ev.member["metadata"].Obj? then ev.member["metadata"] == Obj(ev.metadata) else ev.metadata == map[])
    && (if "seq" in ev.metadata && ev.metadata["seq"].Num? then ev.metadata["seq"] == Num(OrElse(ev.seqNo, 0)) && ev.seqNo.Some? else ev.seqNo.None?)
  }

  /** What is read out of a result carries the metadata and the number that the member has. */
  lemma EventsAreWhole(result: Json)
    requires ExtractMemberEvent(result).Some?
    ensures IsWhole(ExtractMemberEvent(result).value)
  {
  }

  /** The result that holds an event. */
  function ResultOf(ev: WireEvent): Json { Obj(map[MemberKey(ev.kind) := Obj(ev.member)]) }

  /** An event put into a result comes back, and nothing else does. */
  lemma EventsComeBack(ev: WireEvent, result: Json)
    ensures IsWhole(ev) <==> ExtractMemberEvent(ResultOf(ev)) == Some(ev)
    ensures ExtractMemberEvent(result) == Some(ev) ==>
              result.Obj? && OnlyMember(result.fields, ev.kind) && result.fields[MemberKey(ev.kind)] == Obj(ev.member) && IsWhole(ev)
  {
    EventsHaveOneMember(result);
    if ExtractMemberEvent(result) == Some(ev) { EventsAreWhole(result); }
    var m := ResultOf(ev).fields;
    assert OnlyMember(m, ev.kind) by {
      forall other: MemberKind | other != ev.kind ensures MemberKey(other) !in m {
        match other { case Task => case Message => case StatusUpdate => case ArtifactUpdate => }
      }
    }
    EventsHaveOneMember(ResultOf(ev));
    var back := ExtractMemberEvent(ResultOf(ev)).value;
    assert OnlyMember(m, back.kind) ==> back.kind == ev.kind;
    EventsAreWhole(ResultOf(ev));
    hide ExtractMemberEvent;
    if IsWhole(ev) { assert back.member == ev.member && back.metadata == ev.metadata && back.seqNo == ev.seqNo; }
  }

  /** One line of an event block; lines without the data prefix are comments. */
  function ReadLine(parse: EnvelopeParser, requestId: Json, line: string): LineReading {
    if !("data:" <= line) then Ignored else
    match parse(line[5..])
    case None => Rejected(WireFailure(Protocol, None, None))
    case Some(envelope) =>
      if envelope.id != requestId then Rejected(ProtocolFailure("envelope_id_mismatch")) else
      match envelope.body
      case Failure(error) => Rejected(ClassifyRpcError(error))
      case Result(result) =>
        var ev := ExtractMemberEvent(result);
        if ev.None? then Rejected(ProtocolFailure("unexpected_result_shape")) else Event(ev.value)
  }

  /** An event line holds an envelope of this request with the event as its result. */
  predicate Brings(parse: EnvelopeParser, requestId: Json, line: string, ev: WireEvent) {
    && "data:" <= line && parse(line[5..]).Some?
    && var envelope := parse(line[5..]).value;
    && envelope.id == requestId && envelope.body.Result? && ExtractMemberEvent(envelope.body.result) == Some(ev)
  }

  /**
   * A line brings an event exactly when it holds one for this request; another
   * request's envelope is refused, whatever it holds, and an error or a result
   * of another shape is refused, too.
   */
  lemma LinesBringTheirOwnEvents(parse: EnvelopeParser, requestId: Json, line: string)
    ensures forall ev :: ReadLine(parse, requestId, line) == Event(ev) <==> Brings(parse, requestId, line, ev)
    ensures ReadLine(parse, requestId, line).Ignored? <==> !("data:" <= line)
    ensures "data:" <= line && parse(line[5..]).None? ==> ReadLine(parse, requestId, line) == Rejected(WireFailure(Protocol, None, None))
    ensures "data:" <= line && parse(line[5..]).Some? ==>
              var envelope, reading := parse(line[5..]).value, ReadLine(parse, requestId, line);
              && (envelope.id != requestId ==> reading == Rejected(ProtocolFailure("envelope_id_mismatch")))
              && (envelope.id == requestId && envelope.body.Failure? ==> reading == Rejected(ClassifyRpcError(envelope.body.error)))
              && (envelope.id == requestId && envelope.body.Result? && ExtractMemberEvent(envelope.body.result).None? ==>
                    reading == Rejected(ProtocolFailure("unexpected_result_shape")))
  {
  }

  /** How a stream ends: with its final marker, with a typed failure, or silently after an abort. */
  datatype Ending = FinalSeen | Failed(failure: WireFailure) | Silent

  datatype Reading = Reading(events: seq<WireEvent>, stop: Option<Ending>)

  /** Reading lines in order; whatever follows a stop is never looked at. */
  function ReadLines(parse: EnvelopeParser, requestId: Json, lines: seq<string>): Reading {
    if lines == [] then Reading([], None) else
    var before := ReadLines(parse, requestId, lines[..|lines| - 1]);
    if before.stop.Some? then before else
    match ReadLine(parse, requestId, lines[|lines| - 1])
    case Ignored => before
    case Rejected(failure) => Reading(before.events, Some(Failed(failure)))
    case Event(ev) => Reading(before.events + [ev], if IsFinalMarker(ev) then Some(FinalSeen) else None)
  }

  lemma {:induction false} NothingAfterAStop(parse: EnvelopeParser, requestId: Json, lines: seq<string>, more: seq<string>)
    requires ReadLines(parse, requestId, lines).stop.Some?
    ensures ReadLines(parse, requestId, lines + more) == ReadLines(parse, requestId, lines)
  {
    if more == [] {
      assert lines + more == lines;
    } else {
      NothingAfterAStop(parse, requestId, lines, more[..|more| - 1]);
      assert (lines + more)[..|lines + more| - 1] == lines + more[..|more| - 1];
    }
  }

  // ----------------------------------------------------------- text structure

  /** The first position of an empty line, or -1. */
  function IndexOfSep(s: string): (i: int)
    ensures i == -1 || 0 <= i < |s| - 1
    ensures i >= 0 ==> s[i] == '\n' && s[i + 1] == '\n'
    ensures forall j :: 0 <= j < |s| - 1 && s[j] == '\n' && s[j + 1] == '\n' ==> 0 <= i <= j
  {
    if |s| < 2 then -1
    else if s[0] == '\n' && s[1] == '\n' then 0
    else
      var rest := IndexOfSep(s[1..]);
      assert forall j :: 0 < j < |s| - 1 ==> s[j] == s[1..][j - 1] && s[j + 1] == s[1..][j];
      if rest < 0 then -1 else rest + 1
  }

  datatype Drained = Drained(blocks: seq<string>, rest: string)

  /** All complete event blocks of a text, and the piece after the last of them. */
  function Drain(text: string): Drained
    decreases |text|
  {
    var i := IndexOfSep(text);
    if i < 0 then Drained([], text)
    else
      var tail := Drain(text[i + 2..]);
      Drained([text[..i]] + tail.blocks, tail.rest)
  }

  lemma SameFirstSep(a: string, b: string)
    requires IndexOfSep(a) >= 0
    ensures IndexOfSep(a + b) == IndexOfSep(a)
  {
    hide IndexOfSep;
    var i, j := IndexOfSep(a), IndexOfSep(a + b);
    assert (a + b)[i] == '\n' && (a + b)[i + 1] == '\n';
    assert a[j] == '\n' && a[j + 1] == '\n';
  }

  lemma DrainStep(text: string)
    requires IndexOfSep(text) >= 0
    ensures var i := IndexOfSep(text);
            Drain(text) == Drained([text[..i]] + Drain(text[i + 2..]).blocks, Drain(text[i + 2..]).rest)
  {
    hide IndexOfSep;
  }

  lemma NoStep(text: string)
    requires IndexOfSep(text) < 0
    ensures Drain(text) == Drained([], text)
  {
  }

  /** Draining what has arrived and then the remainder with more text drains everything. */
  lemma {:induction false} DrainInPieces(a: string, b: string)
    ensures Drain(a + b) == Drained(Drain(a).blocks + Drain(Drain(a).rest + b).blocks, Drain(Drain(a).rest + b).rest)
    decreases |a|
  {
    hide IndexOfSep, Drain;
    var i := IndexOfSep(a);
    if i >= 0 {
      SameFirstSep(a, b);
      assert (a + b)[i + 2..] == a[i + 2..] + b && (a + b)[..i] == a[..i];
      DrainStep(a);
      DrainStep(a + b);
      DrainInPieces(a[i + 2..], b);
      var later := Drain(Drain(a[i + 2..]).rest + b).blocks;
      assert [a[..i]] + (Drain(a[i + 2..]).blocks + later) == ([a[..i]] + Drain(a[i + 2..]).blocks) + later;
    } else {
      NoStep(a);
      assert [] + Drain(a + b).blocks == Drain(a + b).blocks;
    }
  }

  /** The lines of a block, as splitting at newlines gives them. */
  function SplitLines(block: string): (lines: seq<string>)
    ensures lines != []
  {
    if block == "" then [""]
    else
      var lines := SplitLines(block[..|block| - 1]);
      var c := block[|block| - 1];
      if c == '\n' then lines + [""] else lines[|lines| - 1 := lines[|lines| - 1] + [c]]
  }

  function AllLines(blocks: seq<string>): seq<string> {
    if blocks == [] then [] else AllLines(blocks[..|blocks| - 1]) + SplitLines(blocks[|blocks| - 1])
  }

  lemma {:induction false} AllLinesOfBoth(a: seq<string>, b: seq<string>)
    ensures AllLines(a + b) == AllLines(a) + AllLines(b)
  {
    hide SplitLines;
    if b == [] {
      assert a + b == a;
    } else {
      AllLinesOfBoth(a, b[..|b| - 1]);
      assert (a + b)[..|a + b| - 1] == a + b[..|b| - 1];
    }
  }

  lemma OneMoreBlock(blocks: seq<string>, block: string, more: seq<string>)
    ensures AllLines(blocks + [block]) == AllLines(blocks) + SplitLines(block)
    ensures AllLines(blocks + [block]) <= AllLines(blocks + ([block] + more))
  {
    hide SplitLines;
    assert (blocks + [block])[..|blocks|] == blocks;
    AllLinesOfBoth(blocks + [block], more);
    assert blocks + ([block] + more) == (blocks + [block]) + more;
  }

  function Concat(chunks: seq<string>): string {
    if chunks == [] then "" else Concat(chunks[..|chunks| - 1]) + chunks[|chunks| - 1]
  }

  // ------------------------------------------------------- one-shot reference

  /** What the transport does after the last chunk. */
  datatype Close = Eof | BrokenPipe(aborted: bool)

  /** The text read as one piece, whatever chunks it came in. */
  function ReadWhole(parse: EnvelopeParser, requestId: Json, text: string, close: Close): (seq<WireEvent>, Ending) {
    var d := Drain(text);
    var r := ReadLines(parse, requestId, AllLines(d.blocks));
    if r.stop.Some? then (r.events, r.stop.value) else
    match close
    case BrokenPipe(aborted) => (r.events, if aborted then Silent else Failed(WireFailure(Transport, None, None)))
    case Eof =>
      match parse(d.rest)
      case Some(Envelope(_, Failure(error))) =>
        (r.events, if r.events == [] then Failed(ClassifyRpcError(error)) else Failed(TransportFailure("sse_eof_no_final")))
      case _ => (r.events, Failed(TransportFailure("sse_eof_no_final")))
  }

  /** No piece between two separators, nor the trailing one, outgrows the cap anywhere in the text. */
  ghost predicate NoLongPiece(text: string, cap: nat) {
    forall k :: 0 <= k <= |text| ==> |Drain(text[..k]).rest| <= cap
  }

  /** The stream is cut because the piece pending after chunk `j` is too long. */
  ghost predicate Overflows(parse: EnvelopeParser, requestId: Json, chunks: seq<string>, cap: nat,
                            events: seq<WireEvent>, ending: Ending, j: nat) {
    && j <= |chunks|
    && ending == Failed(ProtocolFailure("event_overflow"))
    && |Drain(Concat(chunks[..j])).rest| > cap
    && ReadLines(parse, requestId, AllLines(Drain(Concat(chunks[..j])).blocks)) == Reading(events, None)
  }

  lemma {:induction false} ConcatPrefix(chunks: seq<string>, j: nat)
    requires j <= |chunks|
    ensures exists tail :: Concat(chunks) == Concat(chunks[..j]) + tail
  {
    if j == |chunks| {
      assert chunks[..j] == chunks;
      assert Concat(chunks) == Concat(chunks[..j]) + "";
    } else {
      ConcatPrefix(chunks[..|chunks| - 1], j);
      assert chunks[..|chunks| - 1][..j] == chunks[..j];
      var tail :| Concat(chunks[..|chunks| - 1]) == Concat(chunks[..j]) + tail;
      assert Concat(chunks) == Concat(chunks[..j]) + (tail + chunks[|chunks| - 1]);
    }
  }

  /** A stop inside an early part of the text is the stop of the whole text. */
  lemma EarlyStopIsFinal(parse: EnvelopeParser, requestId: Json, text: string, more: string, close: Close)
    requires ReadLines(parse, requestId, AllLines(Drain(text).blocks)).stop.Some?
    ensures ReadWhole(parse, requestId, text + more, close)
         == (ReadLines(parse, requestId, AllLines(Drain(text).blocks)).events,
             ReadLines(parse, requestId, AllLines(Drain(text).blocks)).stop.value)
  {
    hide Drain, AllLines, ReadLines;
    DrainInPieces(text, more);
    var later := Drain(Drain(text).rest + more).blocks;
    AllLinesOfBoth(Drain(text).blocks, later);
    NothingAfterAStop(parse, requestId, AllLines(Drain(text).blocks), AllLines(later));
  }

  /** The line loop over one event block; `read` are the lines before the block. */
  method ReadBlock(parse: EnvelopeParser, requestId: Json, rawEvent: string, before: seq<WireEvent>, ghost read: seq<string>)
    returns (events: seq<WireEvent>, stop: Option<Ending>)
    requires ReadLines(parse, requestId, read) == Reading(before, None)
    ensures Reading(events, stop) == ReadLines(parse, requestId, read + SplitLines(rawEvent))
  {
    hide ReadLine, ReadLines, SplitLines;
    var lines := SplitLines(rawEvent);
    events, stop := before, None;
    assert read + lines[..0] == read;
    var k := 0;
    while k < |lines| && stop.None?
      invariant 0 <= k <= |lines|
      invariant ReadLines(parse, requestId, read + lines[..k]) == Reading(events, stop)
      decreases |lines| - k
    {
      OneMoreLine(parse, requestId, read + lines[..k], lines[k]);
      assert (read + lines[..k]) + [lines[k]] == read + lines[..k + 1];
      match ReadLine(parse, requestId, lines[k]) {
        case Ignored =>
        case Rejected(failure) => stop := Some(Failed(failure));
        case Event(ev) =>
          events := events + [ev];
          stop := if IsFinalMarker(ev) then Some(FinalSeen) else None;
      }
      k := k + 1;
    }
    assert (read + lines[..k]) + lines[k..] == read + lines;
    if stop.Some? {
      NothingAfterAStop(parse, requestId, read + lines[..k], lines[k..]);
    } else {
      assert lines[..k] == lines;
    }
  }

  lemma OneMoreLine(parse: EnvelopeParser, requestId: Json, lines: seq<string>, line: string)
    requires ReadLines(parse, requestId, lines).stop.None?
    ensures var before := ReadLines(parse, requestId, lines).events;
            ReadLines(parse, requestId, lines + [line]) ==
              match ReadLine(parse, requestId, line)
              case Ignored => Reading(before, None)
              case Rejected(failure) => Reading(before, Some(Failed(failure)))
              case Event(ev) => Reading(before + [ev], if IsFinalMarker(ev) then Some(FinalSeen) else None)
  {
    hide ReadLine;
    assert (lines + [line])[..|lines|] == lines;
  }

  /** Draining the buffer: the complete blocks are read until one of them stops the stream. */
  method DrainBuffer(parse: EnvelopeParser, requestId: Json, pending: string, before: seq<WireEvent>, ghost read: seq<string>)
    returns (events: seq<WireEvent>, stop: Option<Ending>, buffer: string)
    requires ReadLines(parse, requestId, read) == Reading(before, None)
    ensures Reading(events, stop) == ReadLines(parse, requestId, read + AllLines(Drain(pending).blocks))
    ensures stop.None? ==> buffer == Drain(pending).rest
  {
    hide *;
    events, stop, buffer := before, None, pending;
    ghost var blocks := [];
    NothingDrained(pending);
    assert read + [] == read;
    var idx := IndexOfSep(buffer);
    while idx >= 0
      invariant idx == IndexOfSep(buffer) && stop.None?
      invariant Drain(pending) == Drained(blocks + Drain(buffer).blocks, Drain(buffer).rest)
      invariant ReadLines(parse, requestId, read + AllLines(blocks)) == Reading(events, None)
      decreases |buffer|
    {
      DrainStep(buffer);
      var rawEvent := buffer[..idx];
      buffer := buffer[idx + 2..];
      ghost var later := Drain(buffer).blocks;
      OneMoreBlock(blocks, rawEvent, later);
      events, stop := ReadBlock(parse, requestId, rawEvent, events, read + AllLines(blocks));
      assert (read + AllLines(blocks)) + SplitLines(rawEvent) == read + AllLines(blocks + [rawEvent]);
      assert blocks + ([rawEvent] + later) == (blocks + [rawEvent]) + later;
      blocks := blocks + [rawEvent];
      if stop.Some? {
        AllLinesOfBoth(blocks, later);
        NothingAfterAStop(parse, requestId, read + AllLines(blocks), AllLines(later));
        assert (read + AllLines(blocks)) + AllLines(later) == read + AllLines(blocks + later);
        return;
      }
      idx := IndexOfSep(buffer);
    }
    NoStep(buffer);
    assert blocks + [] == blocks;
  }

  lemma NothingDrained(text: string)
    ensures Drain(text) == Drained([] + Drain(text).blocks, Drain(text).rest)
    ensures AllLines([]) == []
  {
    assert [] + Drain(text).blocks == Drain(text).blocks;
  }

  /** The generator of stream.ts: grow the buffer chunk by chunk, drain it, then check the cap. */
  method StreamRpc(parse: EnvelopeParser, requestId: Json, chunks: seq<string>, close: Close, cap: nat)
    returns (events: seq<WireEvent>, ending: Ending)
    ensures (events, ending) == ReadWhole(parse, requestId, Concat(chunks), close)
         || exists j: nat :: Overflows(parse, requestId, chunks, cap, events, ending, j)
    ensures NoLongPiece(Concat(chunks), cap) ==> (events, ending) == ReadWhole(parse, requestId, Concat(chunks), close)
  {
    hide ReadLines, Drain, AllLines;
    var buffer := "";
    events := [];
    NothingReadYet(parse, requestId);
    var c := 0;
    while c < |chunks|
      invariant 0 <= c <= |chunks|
      invariant buffer == Drain(Concat(chunks[..c])).rest
      invariant ReadLines(parse, requestId, AllLines(Drain(Concat(chunks[..c])).blocks)) == Reading(events, None)
    {
      ghost var text, grown := Concat(chunks[..c]), Concat(chunks[..c + 1]);
      assert chunks[..c + 1][..c] == chunks[..c];
      DrainInPieces(text, chunks[c]);
      ghost var read := AllLines(Drain(text).blocks);
      AllLinesOfBoth(Drain(text).blocks, Drain(buffer + chunks[c]).blocks);
      var stop;
      events, stop, buffer := DrainBuffer(parse, requestId, buffer + chunks[c], events, read);
      ConcatPrefix(chunks, c + 1);
      ghost var tail :| Concat(chunks) == grown + tail;
      if stop.Some? {
        EarlyStopIsFinal(parse, requestId, grown, tail, close);
        return events, stop.value;
      }
      if |buffer| > cap {
        ending := Failed(ProtocolFailure("event_overflow"));
        assert Overflows(parse, requestId, chunks, cap, events, ending, c + 1);
        assert Concat(chunks)[..|grown|] == grown;
        return;
      }
      c := c + 1;
    }
    assert chunks[..c] == chunks;
    match close
    case BrokenPipe(aborted) => ending := if aborted then Silent else Failed(WireFailure(Transport, None, None));
    case Eof =>
      ending := Failed(TransportFailure("sse_eof_no_final"));
      if events == [] {
        var leftover := parse(buffer);
        if leftover.Some? && leftover.value.body.Failure? {
          ending := Failed(ClassifyRpcError(leftover.value.body.error));
        }
      }
  }

  lemma NothingReadYet(parse: EnvelopeParser, requestId: Json)
    ensures Drain("") == Drained([], "") && AllLines([]) == [] && ReadLines(parse, requestId, []) == Reading([], None)
    ensures Concat([]) == ""
  {
  }

  // -------------------------------------------------------- printing and back

  /** What a server writes for a list of payloads: one data line and one empty line for each. */
  function Print(payloads: seq<string>): string {
    if payloads == [] then "" else "data:" + payloads[0] + "\n\n" + Print(payloads[1..])
  }

  function DataLines(payloads: seq<string>): seq<string> {
    if payloads == [] then [] else ["data:" + payloads[0]] + DataLines(payloads[1..])
  }

  lemma {:induction false} LineWithoutNewline(line: string)
    requires '\n' !in line
    ensures SplitLines(line) == [line]
  {
    if line != "" {
      LineWithoutNewline(line[..|line| - 1]);
      assert line == line[..|line| - 1] + [line[|line| - 1]];
    }
  }

  lemma FirstPrintedBlock(line: string, rest: string)
    requires '\n' !in line
    ensures IndexOfSep(line + "\n\n" + rest) == |line|
  {
    hide IndexOfSep;
    var text := line + "\n\n" + rest;
    assert text[|line|] == '\n' && text[|line| + 1] == '\n';
    forall j | 0 <= j < |line| ensures text[j] != '\n' { assert text[j] == line[j]; }
  }

  lemma PrintStep(payloads: seq<string>) returns (line: string, rest: string)
    requires payloads != [] && '\n' !in payloads[0]
    ensures '\n' !in line && rest == Print(payloads[1..]) && Print(payloads) == line + "\n\n" + rest
    ensures DataLines(payloads) == [line] + DataLines(payloads[1..])
  {
    line, rest := "data:" + payloads[0], Print(payloads[1..]);
  }

  lemma OneLineBlocks(line: string, lines: seq<string>)
    requires '\n' !in line && AllLines(lines) == lines
    ensures AllLines([line] + lines) == [line] + lines
  {
    hide SplitLines;
    AllLinesOfBoth([line], lines);
    LineWithoutNewline(line);
    assert [line][..0] == [];
  }

  /** Every printed payload comes back as its own block and line, with nothing left over. */
  lemma {:induction false} PrintedPayloadsAreReadBack(payloads: seq<string>)
    requires forall p :: p in payloads ==> '\n' !in p
    ensures Drain(Print(payloads)) == Drained(DataLines(payloads), "")
    ensures AllLines(DataLines(payloads)) == DataLines(payloads)
  {
    if payloads != [] {
      var line, rest := PrintStep(payloads);
      hide *;
      PrintedPayloadsAreReadBack(payloads[1..]);
      FirstPrintedBlock(line, rest);
      var text := line + "\n\n" + rest;
      assert text[..|line|] == line && text[|line| + 2..] == rest;
      DrainStep(text);
      OneLineBlocks(line, DataLines(payloads[1..]));
    }
  }

  /** No piece of a printed stream grows longer than one line with its newline. */
  lemma {:induction false} PrintedPiecesAreShort(payloads: seq<string>, cap: nat)
    requires forall p :: p in payloads ==> '\n' !in p && |p| + 6 <= cap
    ensures NoLongPiece(Print(payloads), cap)
  {
    forall k | 0 <= k <= |Print(payloads)| ensures |Drain(Print(payloads)[..k]).rest| <= cap {
      PrintedPieceIsShort(payloads, cap, k);
    }
  }

  lemma {:induction false} PrintedPieceIsShort(payloads: seq<string>, cap: nat, k: nat)
    requires k <= |Print(payloads)| && forall p :: p in payloads ==> '\n' !in p && |p| + 6 <= cap
    ensures |Drain(Print(payloads)[..k]).rest| <= cap
    decreases |payloads|
  {
    if payloads == [] {
      NoStep("");
    } else {
      var line, rest := PrintStep(payloads);
      assert |line| + 1 <= cap;
      var text := line + "\n\n" + rest;
      hide *;
      if k <= |line| + 1 {
        OpenLineHasNoSep(line, rest, k);
        NoStep(text[..k]);
      } else {
        assert text[..k] == line + "\n\n" + rest[..k - |line| - 2];
        FirstPrintedBlock(line, rest[..k - |line| - 2]);
        DrainStep(text[..k]);
        assert text[..k][|line| + 2..] == rest[..k - |line| - 2];
        PrintedPieceIsShort(payloads[1..], cap, k - |line| - 2);
      }
    }
  }

  lemma OpenLineHasNoSep(line: string, rest: string, k: nat)
    requires '\n' !in line && k <= |line| + 1
    ensures IndexOfSep((line + "\n\n" + rest)[..k]) < 0
  {
    hide IndexOfSep;
    var text := (line + "\n\n" + rest)[..k];
    forall j | 0 <= j < |line| && j < k ensures text[j] != '\n' { assert text[j] == line[j]; }
  }

  // ------------------------------------------------- events printed and read

  /** The events of a list up to its first final marker. */
  function UpToMarker(events: seq<WireEvent>): seq<WireEvent> {
    if events == [] then [] else [events[0]] + if IsFinalMarker(events[0]) then [] else UpToMarker(events[1..])
  }

  /** Each payload holds the event at its place, for this request. */
  ghost predicate Carry(parse: EnvelopeParser, requestId: Json, payloads: seq<string>, events: seq<WireEvent>) {
    && |payloads| == |events|
    && (forall i :: 0 <= i < |payloads| ==>
          '\n' !in payloads[i] && IsWhole(events[i]) && parse(payloads[i]) == Some(Envelope(requestId, Result(ResultOf(events[i])))))
  }

  lemma {:induction false} FirstLineRead(parse: EnvelopeParser, requestId: Json, line: string, ev: WireEvent, more: seq<string>)
    requires ReadLine(parse, requestId, line) == Event(ev)
    ensures var later := ReadLines(parse, requestId, more);
            ReadLines(parse, requestId, [line] + more) ==
              if IsFinalMarker(ev) then Reading([ev], Some(FinalSeen)) else Reading([ev] + later.events, later.stop)
  {
    hide ReadLine, IsFinalMarker;
    if more == [] {
      assert [line] + more == [] + [line];
      NothingReadYet(parse, requestId);
      OneMoreLine(parse, requestId, [], line);
    } else {
      FirstLineRead(parse, requestId, line, ev, more[..|more| - 1]);
      assert ([line] + more)[..|more|] == [line] + more[..|more| - 1];
    }
  }

  lemma {:induction false} PrintedLinesAreRead(parse: EnvelopeParser, requestId: Json, payloads: seq<string>, events: seq<WireEvent>)
    requires Carry(parse, requestId, payloads, events)
    ensures ReadLines(parse, requestId, DataLines(payloads)) ==
            Reading(UpToMarker(events), if exists e :: e in events && IsFinalMarker(e) then Some(FinalSeen) else None)
    decreases |payloads|
  {
    hide ReadLine, IsFinalMarker, IsWhole, ResultOf;
    if payloads == [] {
      NothingReadYet(parse, requestId);
    } else {
      PrintedLinesAreRead(parse, requestId, payloads[1..], events[1..]);
      var line := "data:" + payloads[0];
      PrintedLineIsRead(parse, requestId, payloads[0], events[0]);
      FirstLineRead(parse, requestId, line, events[0], DataLines(payloads[1..]));
      assert forall e :: e in events <==> e == events[0] || e in events[1..];
    }
  }

  lemma PrintedLineIsRead(parse: EnvelopeParser, requestId: Json, payload: string, ev: WireEvent)
    requires IsWhole(ev) && parse(payload) == Some(Envelope(requestId, Result(ResultOf(ev))))
    ensures ReadLine(parse, requestId, "data:" + payload) == Event(ev)
  {
    assert ("data:" + payload)[5..] == payload;
    EventsComeBack(ev, ResultOf(ev));
    hide ExtractMemberEvent;
  }

  /**
   * A whole stream of events, printed and read in any chunks: exactly the events
   * up to the first final marker come back in order, and the stream ends as
   * seen to its end exactly when there is a marker among them.
   */
  method ReadPrinted(parse: EnvelopeParser, requestId: Json, chunks: seq<string>, close: Close, cap: nat,
                     ghost payloads: seq<string>, ghost sent: seq<WireEvent>)
    returns (events: seq<WireEvent>, ending: Ending)
    requires Carry(parse, requestId, payloads, sent)
    requires Concat(chunks) == Print(payloads) && NoLongPiece(Print(payloads), cap)
    ensures events == UpToMarker(sent)
    ensures (forall i :: 0 <= i < |sent| - 1 ==> !IsFinalMarker(sent[i])) ==> events == sent
    ensures ending == FinalSeen <==> exists e :: e in sent && IsFinalMarker(e)
    ensures ending != FinalSeen ==>
              match close
              case Eof => sent != [] ==> ending == Failed(TransportFailure("sse_eof_no_final"))
              case BrokenPipe(aborted) => if aborted then ending == Silent else ending == Failed(WireFailure(Transport, None, None))
  {
    events, ending := StreamRpc(parse, requestId, chunks, close, cap);
    forall p | p in payloads ensures '\n' !in p { var i :| 0 <= i < |payloads| && payloads[i] == p; }
    PrintedPayloadsAreReadBack(payloads);
    PrintedLinesAreRead(parse, requestId, payloads, sent);
    MarkersOnlyCutOff(sent);
    hide ReadLines, Drain, AllLines, IsFinalMarker, NoLongPiece, Print, DataLines;
    if sent != [] { assert UpToMarker(sent) != []; }
  }

  /** A body that is one bare error envelope, with no event before it, is reported as that error, and nothing else is. */
  lemma BareErrorsAreReported(parse: EnvelopeParser, requestId: Json, text: string, error: RpcError)
    requires IndexOfSep(text) < 0
    ensures ReadWhole(parse, requestId, text, Eof) == ([], Failed(ClassifyRpcError(error))) ==>
              parse(text).Some? && parse(text).value.body.Failure?
    ensures (exists id :: parse(text) == Some(Envelope(id, Failure(error)))) ==>
              ReadWhole(parse, requestId, text, Eof) == ([], Failed(ClassifyRpcError(error)))
  {
    NoStep(text);
    NothingReadYet(parse, requestId);
    hide IndexOfSep, Drain;
  }

  lemma {:induction false} MarkersOnlyCutOff(events: seq<WireEvent>)
    ensures (forall i :: 0 <= i < |events| - 1 ==> !IsFinalMarker(events[i])) ==> UpToMarker(events) == events
  {
    if |events| > 1 && forall i :: 0 <= i < |events| - 1 ==> !IsFinalMarker(events[i]) {
      forall i | 0 <= i < |events[1..]| - 1 ensures !IsFinalMarker(events[1..][i]) { assert events[1..][i] == events[i + 1]; }
      MarkersOnlyCutOff(events[1..]);
    }
  }
}
