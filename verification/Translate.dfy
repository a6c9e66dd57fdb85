/** Translation of wire events into chat frames (translate.ts). */
module Translate {
  import opened Json
  import Pointer

  const FAILED := "TASK_STATE_FAILED"
  const CANCELED := "TASK_STATE_CANCELED"
  const REJECTED := "TASK_STATE_REJECTED"
  const COMPLETED := "TASK_STATE_COMPLETED"
  const INPUT_REQUIRED := "TASK_STATE_INPUT_REQUIRED"

  datatype MemberKind = Task | Message | StatusUpdate | ArtifactUpdate

  datatype WireEvent = WireEvent(seqNo: Option<int>, kind: MemberKind, member: Fields, metadata: Fields)

  /** A whole frame for the parser; its type is always "event". */
  datatype Frame = Frame(event: string, seqNo: Option<int>, payload: Fields)

  datatype FrameKind = Passthrough | Delta | Final | Error

  datatype Output = Output(frame: Frame, kind: FrameKind, consumedSeq: Option<int>)

  datatype Context = Context(sessionKey: string, taskRunId: Option<string>)

  /** The status state of a member, the empty string when there is none. */
  function StateOf(member: Fields): string {
    match ObjAt(member, "status")
    case None => ""
    case Some(status) => OrElse(StrAt(status, "state"), "")
  }

  predicate IsFinalMarker(ev: WireEvent) {
    ev.kind.StatusUpdate? && StrAt(ev.metadata, "final") == Some("true")
  }

  predicate HasErrorCode(ev: WireEvent) {
    var code := StrAt(ev.metadata, "errorCode");
    code.Some? && code.value != ""
  }

  function RunIdOf(member: Fields, ctx: Context): string {
    var taskId := OrElse(StrAt(member, "taskId"), "");
    var fallback := OrElse(ctx.taskRunId, "");
    if taskId != "" then taskId else if fallback != "" then fallback else "a2a-run"
  }

  function SynthRequest(ctx: Context): Json {
    Obj(map["sessionKey" := Str(ctx.sessionKey)])
  }

  function TextOfPart(part: Json): string {
    if part.Obj? then OrElse(StrAt(part.fields, "text"), "") else ""
  }

  function JoinParts(parts: seq<Json>): string {
    if parts == [] then "" else TextOfPart(parts[0]) + JoinParts(parts[1..])
  }

  function PartsText(member: Fields): Option<string> {
    match ObjAt(member, "artifact")
    case None => None
    case Some(artifact) =>
      if "parts" in artifact && artifact["parts"].Arr? then Some(JoinParts(artifact["parts"].items)) else None
  }

  function SeqJson(seqNo: Option<int>): Json {
    match seqNo case None => Null case Some(n) => Num(n)
  }

  function ChatFrame(ev: WireEvent, ctx: Context, payload: Fields): Frame {
    Frame("chat", ev.seqNo,
          map["runId" := Str(RunIdOf(ev.member, ctx)),
              "sessionKey" := Str(ctx.sessionKey),
              "request" := SynthRequest(ctx),
              "seq" := SeqJson(ev.seqNo)] + payload)
  }

  function AssistantMessage(text: string): Json {
    Obj(map["role" := Str("assistant"),
            "content" := Arr([Obj(map["type" := Str("text"), "text" := Str(text)])])])
  }

  /** The rolling text after an artifact update: replaced on append=false, extended otherwise. */
  function RollingText(ev: WireEvent, fullText: string): string {
    if !ev.kind.ArtifactUpdate? then fullText else
    match PartsText(ev.member)
    case None => fullText
    case Some(text) => if Get(ev.member, "append") == Bool(false) then text else fullText + text
  }

  /** `rolling` is the text with this update already in it. */
  function TranslateArtifact(ev: WireEvent, ctx: Context, rolling: string): Option<Output>
    requires ev.kind.ArtifactUpdate?
  {
    if PartsText(ev.member).None? || rolling == "" then None else
    Some(Output(ChatFrame(ev, ctx, TextContent("delta", rolling)), Delta, ev.seqNo))
  }

  function Optional(key: string, value: Option<Json>): Fields {
    if value.Some? then map[key := value.value] else map[]
  }

  function AsJson(s: Option<string>): Option<Json> {
    if s.Some? then Some(Str(s.value)) else None
  }

  function TextContent(state: string, text: string): Fields {
    map["state" := Str(state), "message" := AssistantMessage(text)]
  }

  function ErrorContent(ev: WireEvent): Fields {
    var engineFrame := ObjAt(ev.metadata, "engine_frame");
    map["state" := Str("error")]
    + Optional("errorMessage", AsJson(StrAt(ev.metadata, "errorMessage")))
    + Optional("errorCode", AsJson(StrAt(ev.metadata, "errorCode")))
    + Optional("engine_frame", if engineFrame.Some? then Some(Obj(engineFrame.value)) else None)
  }

  function TranslateError(ev: WireEvent, ctx: Context): Output {
    Output(ChatFrame(ev, ctx, ErrorContent(ev)), Error, ev.seqNo)
  }

  /** The lossless channel of status updates that carry an engine frame. */
  function TranslateEngineFrame(ev: WireEvent, ctx: Context): Option<Output> {
    match ObjAt(ev.metadata, "engine_frame")
    case None => None
    case Some(engineFrame) =>
      var original := OrElse(StrAt(ev.metadata, "original_event"), "");
      var name :=
        if original != "" then original
        else if StrAt(ev.metadata, "kind") == Some("interaction.resolved") then "chat"
        else if StateOf(ev.member) == INPUT_REQUIRED then "exec.approval.requested"
        else "agent";
      var asksApproval := original == "" && StrAt(ev.metadata, "kind") != Some("interaction.resolved")
                          && StateOf(ev.member) == INPUT_REQUIRED;
      var payload := if asksApproval && ObjAt(engineFrame, "request").None?
                     then engineFrame["request" := SynthRequest(ctx)] else engineFrame;
      Some(Output(Frame(name, ev.seqNo, payload), Passthrough, ev.seqNo))
  }

  function TranslateStatus(ev: WireEvent, ctx: Context, fullText: string): Option<Output> {
    var state := StateOf(ev.member);
    if StrAt(ev.metadata, "final") == Some("true") then
      if state == FAILED || HasErrorCode(ev) then Some(TranslateError(ev, ctx))
      else if state == CANCELED || state == REJECTED then
        Some(Output(ChatFrame(ev, ctx, map["state" := Str("aborted")]), Final, ev.seqNo))
      else
        Some(Output(ChatFrame(ev, ctx, TextContent("final", fullText)), Final, ev.seqNo))
    else if HasErrorCode(ev) then Some(TranslateError(ev, ctx))
    else TranslateEngineFrame(ev, ctx)
  }

  /** Expects the rolling text already updated for `ev`. */
  function TranslateEvent(ev: WireEvent, ctx: Context, fullText: string): Option<Output> {
    match ev.kind
    case Task => None
    case Message => None
    case ArtifactUpdate => TranslateArtifact(ev, ctx, fullText)
    case StatusUpdate => TranslateStatus(ev, ctx, fullText)
  }

  // ------------------------------------------------------- what events carry

  function KeyPath(keys: seq<string>): Pointer.Path { if keys == [] then [] else [Pointer.Key(keys[0])] + KeyPath(keys[1..]) }

  /** The value at a path of keys. */
  function AtKeys(m: Fields, keys: seq<string>): Option<Json> { Pointer.At(Obj(m), KeyPath(keys)) }

  lemma AtOneKey(m: Fields, key: string)
    ensures AtKeys(m, [key]) == if key in m then Some(m[key]) else None
  {
    var path := KeyPath([key]);
    assert [key][1..] == [] && KeyPath([]) == [];
    assert path == [Pointer.Key(key)] && path[1..] == [];
    if key in m { assert Pointer.At(m[key], path[1..]) == Some(m[key]); }
  }

  lemma AtTwoKeys(m: Fields, first: string, second: string)
    ensures AtKeys(m, [first, second]) == if ObjAt(m, first).Some? && second in m[first].fields then Some(m[first].fields[second]) else None
  {
    var path := KeyPath([first, second]);
    assert [first, second][1..] == [second] && path[1..] == KeyPath([second]);
    assert path[0] == Pointer.Key(first);
    if first in m {
      assert Pointer.At(Obj(m), path) == Pointer.At(m[first], path[1..]);
      if m[first].Obj? { AtOneKey(m[first].fields, second); }
    }
  }

  /** Where the state, the marker and the error code of an event stand. */
  lemma WhereEventsCarryTheirState(ev: WireEvent)
    ensures forall s :: s != "" ==> (StateOf(ev.member) == s <==> AtKeys(ev.member, ["status", "state"]) == Some(Str(s)))
    ensures IsFinalMarker(ev) <==> ev.kind == StatusUpdate && AtKeys(ev.metadata, ["final"]) == Some(Str("true"))
    ensures HasErrorCode(ev) <==> exists code :: code != "" && AtKeys(ev.metadata, ["errorCode"]) == Some(Str(code))
  {
    AtTwoKeys(ev.member, "status", "state");
    AtOneKey(ev.metadata, "final");
    AtOneKey(ev.metadata, "errorCode");
  }

  /** Where an artifact update carries its text: each part adds what stands under its `text`, in order. */
  lemma WhereArtifactsCarryTheirText(member: Fields)
    ensures PartsText(member).Some? <==> AtKeys(member, ["artifact", "parts"]).Some? && AtKeys(member, ["artifact", "parts"]).value.Arr?
    ensures PartsText(member).Some? ==> PartsText(member).value == JoinParts(AtKeys(member, ["artifact", "parts"]).value.items)
  {
    AtTwoKeys(member, "artifact", "parts");
  }

  lemma {:induction false} PartsAddUp(a: seq<Json>, b: seq<Json>)
    ensures JoinParts(a + b) == JoinParts(a) + JoinParts(b)
  {
    if a == [] {
      assert a + b == b;
    } else {
      assert (a + b)[1..] == a[1..] + b;
      PartsAddUp(a[1..], b);
    }
  }

  lemma OnePart(part: Json)
    ensures JoinParts([part]) == if part.Obj? && StrAt(part.fields, "text").Some? then StrAt(part.fields, "text").value else ""
  {
    assert [part][1..] == [];
  }

  // ----------------------------------------------------------------- contents

  const CONTENT_KEYS := {"state", "message", "errorMessage", "errorCode", "engine_frame"}

  /** Who speaks in a frame's message, and its text: the parser reads nothing else of it. */
  function SpeakerIn(payload: Fields): Option<Json> { AtKeys(payload, ["message", "role"]) }

  function ShownIn(payload: Fields): Option<Json> {
    Pointer.At(Obj(payload), [Pointer.Key("message"), Pointer.Key("content"), Pointer.Index(0), Pointer.Key("text")])
  }

  lemma MessagesAreRead(payload: Fields, text: string)
    requires Get(payload, "message") == AssistantMessage(text)
    ensures SpeakerIn(payload) == Some(Str("assistant")) && ShownIn(payload) == Some(Str(text))
    ensures AssistantMessage(text).fields["content"].items[0].fields["type"] == Str("text") && |AssistantMessage(text).fields["content"].items| == 1
  {
    AtTwoKeys(payload, "message", "role");
    var path := [Pointer.Key("message"), Pointer.Key("content"), Pointer.Index(0), Pointer.Key("text")];
    assert path[1..][1..][1..] == [Pointer.Key("text")] && path[1..][1..][1..][1..] == [];
    var message := AssistantMessage(text);
    assert Pointer.At(message.fields["content"].items[0], [Pointer.Key("text")]) == Some(Str(text));
    assert Pointer.At(message.fields["content"], path[1..][1..]) == Some(Str(text));
    assert Pointer.At(message, path[1..]) == Some(Str(text));
  }

  lemma NothingIsShown(payload: Fields)
    requires "message" !in payload
    ensures ShownIn(payload).None?
  {
  }

  /** The common frame around a content that keeps to its own keys. */
  lemma ChatFrameHolds(ev: WireEvent, ctx: Context, content: Fields)
    requires content.Keys <= CONTENT_KEYS
    ensures var f := ChatFrame(ev, ctx, content);
            && f.event == "chat" && f.seqNo == ev.seqNo
            && Get(f.payload, "sessionKey") == Str(ctx.sessionKey)
            && Get(f.payload, "request") == Obj(map["sessionKey" := Str(ctx.sessionKey)])
            && StrAt(f.payload, "runId") == Some(RunIdOf(ev.member, ctx))
            && Get(f.payload, "seq") == SeqJson(ev.seqNo)
    ensures forall k :: k in CONTENT_KEYS ==>
              (k in ChatFrame(ev, ctx, content).payload <==> k in content)
              && Get(ChatFrame(ev, ctx, content).payload, k) == Get(content, k)
  {
    assert "sessionKey" !in CONTENT_KEYS && "request" !in CONTENT_KEYS && "runId" !in CONTENT_KEYS && "seq" !in CONTENT_KEYS;
    hide CONTENT_KEYS;
  }

  /** The run of a frame: the event's own task, else the task of the run, else a stand-in. */
  lemma FramesNameTheirRun(member: Fields, ctx: Context)
    ensures RunIdOf(member, ctx) != ""
    ensures forall id :: id != "" && AtKeys(member, ["taskId"]) == Some(Str(id)) ==> RunIdOf(member, ctx) == id
    ensures (forall id :: id != "" ==> AtKeys(member, ["taskId"]) != Some(Str(id))) ==>
              RunIdOf(member, ctx) == if ctx.taskRunId.Some? && ctx.taskRunId.value != "" then ctx.taskRunId.value else "a2a-run"
  {
    AtOneKey(member, "taskId");
  }

  /** Which content a synthesized frame has. */
  lemma ContentOf(ev: WireEvent, ctx: Context, fullText: string) returns (content: Fields)
    ensures var out := TranslateEvent(ev, ctx, fullText);
            out.Some? && !out.value.kind.Passthrough? ==>
              && content.Keys <= CONTENT_KEYS && out.value.consumedSeq == ev.seqNo
              && out.value.frame == ChatFrame(ev, ctx, content)
              && content == (if out.value.kind.Error? then ErrorContent(ev)
                             else if out.value.kind.Delta? then TextContent("delta", fullText)
                             else if StateOf(ev.member) in {CANCELED, REJECTED} then map["state" := Str("aborted")]
                             else TextContent("final", fullText))
  {
    hide ChatFrame, AssistantMessage, PartsText, StateOf, TranslateEngineFrame;
    var out := TranslateEvent(ev, ctx, fullText);
    content := map[];
    if out.Some? && !out.value.kind.Passthrough? {
      content :=
        if out.value.kind.Error? then ErrorContent(ev)
        else if out.value.kind.Delta? then TextContent("delta", fullText)
        else if StateOf(ev.member) in {CANCELED, REJECTED} then map["state" := Str("aborted")]
        else TextContent("final", fullText);
      EngineFramesAreNotSynthesized(ev, ctx);
    }
  }

  lemma EngineFramesAreNotSynthesized(ev: WireEvent, ctx: Context)
    ensures TranslateEngineFrame(ev, ctx).Some? ==> TranslateEngineFrame(ev, ctx).value.kind.Passthrough?
  {
  }

  /** The outcome that an event reports, and none while the run goes on. */
  predicate Fails(ev: WireEvent) { ev.kind.StatusUpdate? && (HasErrorCode(ev) || (IsFinalMarker(ev) && StateOf(ev.member) == FAILED)) }

  predicate Cancels(ev: WireEvent) { IsFinalMarker(ev) && !Fails(ev) && StateOf(ev.member) in {CANCELED, REJECTED} }

  predicate Completes(ev: WireEvent) { IsFinalMarker(ev) && !Fails(ev) && !Cancels(ev) }

  predicate CarriesFrame(ev: WireEvent) {
    ev.kind.StatusUpdate? && !IsFinalMarker(ev) && !HasErrorCode(ev) && ObjAt(ev.metadata, "engine_frame").Some?
  }

  /** Every event gets the kind of frame it calls for, and the others get none. */
  lemma EachEventHasItsFrame(ev: WireEvent, ctx: Context, fullText: string)
    ensures var out := TranslateEvent(ev, ctx, fullText);
            && (Fails(ev) <==> out.Some? && out.value.kind == Error)
            && (Cancels(ev) || Completes(ev) <==> out.Some? && out.value.kind == Final)
            && (CarriesFrame(ev) <==> out.Some? && out.value.kind == Passthrough)
            && (ev.kind == ArtifactUpdate && PartsText(ev.member).Some? && fullText != "" <==> out.Some? && out.value.kind == Delta)
  {
    hide PartsText, ChatFrame, ErrorContent, TextContent;
  }

  /** What the parser acts on: the state of a synthesized frame says what became of the run. */
  lemma FramesSayWhatHappened(ev: WireEvent, ctx: Context, fullText: string)
    requires TranslateEvent(ev, ctx, fullText).Some? && !CarriesFrame(ev)
    ensures StrAt(TranslateEvent(ev, ctx, fullText).value.frame.payload, "state") ==
            Some(if Fails(ev) then "error" else if Cancels(ev) then "aborted" else if Completes(ev) then "final" else "delta")
    ensures var payload := TranslateEvent(ev, ctx, fullText).value.frame.payload;
            if Fails(ev) || Cancels(ev) then ShownIn(payload).None?
            else ShownIn(payload) == Some(Str(fullText)) && SpeakerIn(payload) == Some(Str("assistant"))
  {
    EachEventHasItsFrame(ev, ctx, fullText);
    assert "message" in CONTENT_KEYS && "state" in CONTENT_KEYS;
    hide TranslateEvent, ChatFrame, CONTENT_KEYS, AssistantMessage, StateOf, HasErrorCode, ShownIn, SpeakerIn, IsFinalMarker, ErrorContent;
    var content := ContentOf(ev, ctx, fullText);
    ChatFrameHolds(ev, ctx, content);
    ErrorsShowNothing(ev);
    var payload := TranslateEvent(ev, ctx, fullText).value.frame.payload;
    if Fails(ev) || Cancels(ev) { NothingIsShown(payload); } else { MessagesAreRead(payload, fullText); }
  }

  lemma ErrorsShowNothing(ev: WireEvent)
    ensures "message" !in ErrorContent(ev) && StrAt(ErrorContent(ev), "state") == Some("error")
  {
  }

  /** An error frame holds exactly the event's error message, error code and engine frame. */
  lemma ErrorFramesHoldTheDetails(ev: WireEvent, ctx: Context, fullText: string)
    requires Fails(ev)
    ensures var out := TranslateEvent(ev, ctx, fullText);
            && out.Some?
            && var payload := out.value.frame.payload;
            && (forall k :: k in {"errorMessage", "errorCode"} ==>
                  (k in payload <==> StrAt(ev.metadata, k).Some?) && StrAt(payload, k) == StrAt(ev.metadata, k))
            && ("engine_frame" in payload <==> ObjAt(ev.metadata, "engine_frame").Some?)
            && ObjAt(payload, "engine_frame") == ObjAt(ev.metadata, "engine_frame")
  {
    EachEventHasItsFrame(ev, ctx, fullText);
    assert "errorMessage" in CONTENT_KEYS && "errorCode" in CONTENT_KEYS && "engine_frame" in CONTENT_KEYS;
    hide TranslateEvent, ChatFrame, CONTENT_KEYS, StateOf, HasErrorCode, Fails;
    var content := ContentOf(ev, ctx, fullText);
    ChatFrameHolds(ev, ctx, content);
    ErrorContentHolds(ev);
    hide ErrorContent;
  }

  lemma ErrorContentHolds(ev: WireEvent)
    ensures var content := ErrorContent(ev);
            && (forall k :: k in {"errorMessage", "errorCode"} ==>
                  (k in content <==> StrAt(ev.metadata, k).Some?) && StrAt(content, k) == StrAt(ev.metadata, k))
            && ("engine_frame" in content <==> ObjAt(ev.metadata, "engine_frame").Some?)
            && ObjAt(content, "engine_frame") == ObjAt(ev.metadata, "engine_frame")
  {
  }

  /** A synthesized frame passes the parser's gates: it names its session twice, its run, and the event's number. */
  lemma ChatFramesNameTheirSession(ev: WireEvent, ctx: Context, fullText: string)
    ensures var out := TranslateEvent(ev, ctx, fullText);
            out.Some? && !out.value.kind.Passthrough? ==>
              var f := out.value.frame;
              && f.event == "chat" && f.seqNo == ev.seqNo == out.value.consumedSeq
              && Get(f.payload, "sessionKey") == Str(ctx.sessionKey)
              && Get(f.payload, "request") == Obj(map["sessionKey" := Str(ctx.sessionKey)])
              && Get(f.payload, "seq") == (if ev.seqNo.Some? then Num(ev.seqNo.value) else Null)
              && StrAt(f.payload, "runId") == Some(RunIdOf(ev.member, ctx)) && RunIdOf(ev.member, ctx) != ""
  {
    hide TranslateEvent, ChatFrame, CONTENT_KEYS;
    var content := ContentOf(ev, ctx, fullText);
    if content.Keys <= CONTENT_KEYS { ChatFrameHolds(ev, ctx, content); }
  }

  predicate Resolves(ev: WireEvent) { StrAt(ev.metadata, "kind") == Some("interaction.resolved") }

  predicate NamesItsEvent(ev: WireEvent) { OrElse(StrAt(ev.metadata, "original_event"), "") != "" }

  /** What the parser routes by: the event name of an engine frame. */
  lemma EngineFramesAreRouted(ev: WireEvent, ctx: Context, fullText: string)
    requires CarriesFrame(ev)
    ensures var out := TranslateEvent(ev, ctx, fullText);
            && out.Some? && out.value.frame.seqNo == out.value.consumedSeq == ev.seqNo
            && (NamesItsEvent(ev) ==> AtKeys(ev.metadata, ["original_event"]) == Some(Str(out.value.frame.event)))
            && (!NamesItsEvent(ev) && Resolves(ev) ==> out.value.frame.event == "chat")
            && (!NamesItsEvent(ev) && !Resolves(ev) && StateOf(ev.member) == INPUT_REQUIRED ==> out.value.frame.event == "exec.approval.requested")
            && (!NamesItsEvent(ev) && !Resolves(ev) && StateOf(ev.member) != INPUT_REQUIRED ==> out.value.frame.event == "agent")
  {
    hide PartsText, ChatFrame, ErrorContent, TextContent, StateOf;
    AtOneKey(ev.metadata, "original_event");
  }

  /** An engine frame passes without loss: only an approval without a request gets one that names the session, and nothing else changes. */
  lemma EngineFramesPassWithoutLoss(ev: WireEvent, ctx: Context, fullText: string)
    requires CarriesFrame(ev)
    ensures var payload, engineFrame := TranslateEvent(ev, ctx, fullText).value.frame.payload, ev.metadata["engine_frame"].fields;
            var asksApproval := !NamesItsEvent(ev) && !Resolves(ev) && StateOf(ev.member) == INPUT_REQUIRED;
            if asksApproval && ObjAt(engineFrame, "request").None?
            then payload - {"request"} == engineFrame - {"request"} && Get(payload, "request") == Obj(map["sessionKey" := Str(ctx.sessionKey)])
            else payload == engineFrame
  {
    hide PartsText, ChatFrame, ErrorContent, TextContent, StateOf;
  }

  /**
   * The parser throws on an approval frame without a request object. Such a
   * frame goes out exactly when the engine names the event itself.
   */
  lemma ApprovalWithoutRequest(ev: WireEvent, ctx: Context, fullText: string)
    requires ev.kind.StatusUpdate? && !IsFinalMarker(ev) && !HasErrorCode(ev)
    ensures var out := TranslateEvent(ev, ctx, fullText);
            out.Some? && out.value.frame.event == "exec.approval.requested" ==>
              (ObjAt(out.value.frame.payload, "request").None? <==>
                 && ObjAt(ev.metadata["engine_frame"].fields, "request").None?
                 && OrElse(StrAt(ev.metadata, "original_event"), "") != "")
  {
    hide PartsText, JoinParts, ChatFrame;
  }
}
