/**
 * The value of a run while its events are consumed (A2aRunEngine.ts), and the
 * exactly-once law of replay: an interrupted run that is resumed by any number
 * of replays ends where one uninterrupted reading of the log ends.
 */
module RunState {
  import opened Json
  import opened Translate

  datatype Outcome = Completed | Cancelled | Failed

  datatype RunFailure = RunFailure(errorCode: Option<string>, message: string)

  /** `text` names the rolling text the run shares with its recovery rounds. */
  datatype Anchor<+T> = Anchor(taskRunId: string, sessionKey: string, text: T)

  /** The engine's cursor, anchor and fence. */
  datatype Cursor<+T> = Cursor(appliedSeq: Option<int>, anchor: Option<Anchor<T>>, runSettled: bool)

  /** The bookkeeping of one request or recovery round. */
  datatype Bag<+T> = Bag(ctx: Context, text: T, outcome: Option<Outcome>,
                         runFailure: Option<RunFailure>, terminalApplied: bool)

  /** Everything that consuming an event reads and writes. */
  datatype Run<+T> = Run(cursor: Cursor<T>, bag: Bag<T>, fullText: string, frames: seq<Frame>)

  datatype Verdict = IsFinal | IsError | Continue

  /** `lifted` says that the event released the send ban of the session. */
  datatype Consumed<+T> = Consumed(run: Run<T>, verdict: Verdict, lifted: bool)

  /** The task id that a first event carries: `id` on tasks, `taskId` elsewhere. */
  function TaskIdOf(ev: WireEvent): string {
    OrElse(StrAt(ev.member, if ev.kind.Task? then "id" else "taskId"), "")
  }

  function BuildRunFailure(metadata: Fields): RunFailure {
    RunFailure(StrAt(metadata, "errorCode"), OrElse(StrAt(metadata, "errorMessage"), "a2a run failed"))
  }

  function Named<T>(r: Run<T>, ev: WireEvent): Run<T> {
    if r.bag.ctx.taskRunId.Some? || TaskIdOf(ev) == "" then r else
    r.(bag := r.bag.(ctx := r.bag.ctx.(taskRunId := Some(TaskIdOf(ev)))),
       cursor := r.cursor.(anchor := Some(Anchor(TaskIdOf(ev), r.bag.ctx.sessionKey, r.bag.text))))
  }

  predicate IsDuplicate<T>(r: Run<T>, ev: WireEvent) {
    !IsFinalMarker(ev) && ev.seqNo.Some? && r.cursor.appliedSeq.Some? && ev.seqNo.value <= r.cursor.appliedSeq.value
  }

  function Advanced<T>(r: Run<T>, seqNo: Option<int>): Run<T> {
    if seqNo.Some? then r.(cursor := r.cursor.(appliedSeq := seqNo)) else r
  }

  predicate IsTerminal(kind: FrameKind) { kind.Final? || kind.Error? }

  function Fed<T>(r: Run<T>, out: Output): Run<T> {
    var a := Advanced(r, out.consumedSeq);
    var settled := if IsTerminal(out.kind)
                   then a.(bag := a.bag.(terminalApplied := true), cursor := a.cursor.(runSettled := true))
                   else a;
    settled.(frames := settled.frames + [out.frame])
  }

  /** A translated frame reaches the parser unless it is a second terminal. */
  function TakeOutput<T>(r: Run<T>, ev: WireEvent, out: Output): Consumed<T> {
    if IsTerminal(out.kind) && r.bag.terminalApplied then Consumed(r, Continue, false) else
    var f := Fed(r, out);
    if out.kind.Error? then
      Consumed(f.(bag := f.bag.(outcome := Some(Outcome.Failed), runFailure := Some(BuildRunFailure(ev.metadata)))), IsError, true)
    else if out.kind.Final? then
      var cancelled := StateOf(ev.member) == CANCELED || StateOf(ev.member) == REJECTED;
      Consumed(f.(bag := f.bag.(outcome := Some(if cancelled then Outcome.Cancelled else Outcome.Completed))), IsFinal, !cancelled)
    else Consumed(f, Continue, false)
  }

  function Consume<T>(r0: Run<T>, ev: WireEvent): Consumed<T> {
    var r := Named(r0, ev);
    if IsDuplicate(r, ev) then Consumed(r, Continue, false) else
    var t := r.(fullText := RollingText(ev, r.fullText));
    match TranslateEvent(ev, t.bag.ctx, t.fullText)
    case None => Consumed(Advanced(t, ev.seqNo), Continue, false)
    case Some(out) => TakeOutput(t, ev, out)
  }

  /** The final frame that stands in for a final marker the wire did not deliver. */
  function SynthesizedFinal<T>(r: Run<T>, text: string): Frame {
    Frame("chat", None,
          map["runId" := Str(OrElse(r.bag.ctx.taskRunId, "a2a-run")),
              "sessionKey" := Str(r.bag.ctx.sessionKey),
              "request" := SynthRequest(r.bag.ctx),
              "seq" := Null,
              "state" := Str("final"),
              "message" := AssistantMessage(text)])
  }

  /** GetTask found the task completed after the replay was refused: its text is shown once. */
  function ApplyRecoveredIncomplete<T>(r: Run<T>, state: Option<string>, latestText: Option<string>): Consumed<T> {
    if state != Some(COMPLETED) || r.bag.terminalApplied then Consumed(r, Continue, false) else
    Consumed(r.(bag := r.bag.(terminalApplied := true, outcome := Some(Outcome.Completed)),
                cursor := r.cursor.(runSettled := true),
                frames := r.frames + [SynthesizedFinal(r, OrElse(latestText, r.fullText))]),
             IsFinal, true)
  }

  /** Reading a list of events in order, without any interruption. */
  function ConsumeAll<T>(r: Run<T>, events: seq<WireEvent>): Run<T> {
    if events == [] then r
    else Consume(ConsumeAll(r, events[..|events| - 1]), events[|events| - 1]).run
  }

  // ------------------------------------------------------------------ the log

  predicate Unnumbered(ev: WireEvent) { ev.seqNo.None? }

  /**
   * What the engine publishes for one run: numbers grow from 1, only task and
   * message events have none, and a final marker closes the log and may share
   * the number of the event before it.
   */
  ghost predicate WellFormedLog(log: seq<WireEvent>) {
    && (forall i :: 0 <= i < |log| && Unnumbered(log[i]) ==> log[i].kind.Task? || log[i].kind.Message?)
    && (forall i :: 0 <= i < |log| && !Unnumbered(log[i]) ==> log[i].seqNo.value >= 1)
    && (forall i :: 0 <= i < |log| && IsFinalMarker(log[i]) ==> i == |log| - 1)
    && (forall i, j :: 0 <= i < j < |log| && !Unnumbered(log[i]) && !Unnumbered(log[j]) ==>
          log[i].seqNo.value < log[j].seqNo.value
          || (IsFinalMarker(log[j]) && log[i].seqNo.value == log[j].seqNo.value))
  }

  ghost predicate Fresh<T>(r: Run<T>) {
    r.cursor.appliedSeq.None? && r.bag.ctx.taskRunId.None? && !r.bag.terminalApplied
  }

  predicate Replayable(ev: WireEvent, since: int) {
    ev.seqNo.Some? && (ev.seqNo.value > since || IsFinalMarker(ev))
  }

  /** The numbered events of a log that a replay since `since` has to deliver. */
  function After(log: seq<WireEvent>, since: int): seq<WireEvent> {
    if log == [] then []
    else
      var rest := After(log[..|log| - 1], since);
      if Replayable(log[|log| - 1], since) then rest + [log[|log| - 1]] else rest
  }

  function Numbered(events: seq<WireEvent>): seq<WireEvent> {
    if events == [] then []
    else
      var rest := Numbered(events[..|events| - 1]);
      if Unnumbered(events[|events| - 1]) then rest else rest + [events[|events| - 1]]
  }

  /** One replay stream, cut off anywhere; `reached` is how far into the log it got. */
  datatype Attempt = Attempt(reached: nat, delivered: seq<WireEvent>)

  /** Task and message events may be repeated, left out or invented by a replay. */
  ghost predicate HonestReplay(log: seq<WireEvent>, since: int, a: Attempt) {
    && a.reached <= |log|
    && Numbered(a.delivered) == After(log[..a.reached], since)
    && (forall e :: e in a.delivered && Unnumbered(e) ==> e.kind.Task? || e.kind.Message?)
  }

  function ConsumeAttempts<T>(r: Run<T>, attempts: seq<Attempt>): Run<T> {
    if attempts == [] then r
    else ConsumeAll(ConsumeAttempts(r, attempts[..|attempts| - 1]), attempts[|attempts| - 1].delivered)
  }

  function Max(a: nat, b: nat): nat { if a < b then b else a }

  function Furthest(start: nat, attempts: seq<Attempt>): (n: nat) {
    if attempts == [] then start
    else Max(Furthest(start, attempts[..|attempts| - 1]), attempts[|attempts| - 1].reached)
  }

  /** The seq a recovery round replays from: the cursor, or 0 when nothing was numbered yet. */
  function SinceSeq<T>(r: Run<T>): int { OrElse(r.cursor.appliedSeq, 0) }

  // ------------------------------------------------------------------- proofs

  predicate IsTerminalEvent(ev: WireEvent) {
    ev.kind.StatusUpdate? && (IsFinalMarker(ev) || HasErrorCode(ev))
  }

  lemma TerminalEventsTranslateToTerminalFrames(ev: WireEvent, ctx: Context, text: string)
    ensures IsTerminalEvent(ev) <==> TranslateEvent(ev, ctx, text).Some? && IsTerminal(TranslateEvent(ev, ctx, text).value.kind)
  {
  }

  /** A numbered event behind the reached point of the log no longer has an effect. */
  ghost predicate Absorbed<T>(r: Run<T>, ev: WireEvent) {
    && r.bag.ctx.taskRunId.Some?
    && (IsDuplicate(r, ev) || (IsTerminalEvent(ev) && r.bag.terminalApplied))
  }

  lemma AbsorbedIsIgnored<T>(r: Run<T>, ev: WireEvent)
    requires Absorbed(r, ev)
    ensures Consume(r, ev).run == r && !Consume(r, ev).lifted
  {
    if !IsDuplicate(r, ev) {
      TerminalEventsTranslateToTerminalFrames(ev, r.bag.ctx, r.fullText);
    }
  }

  lemma LifecycleEventIsIgnored<T>(r: Run<T>, ev: WireEvent)
    requires r.bag.ctx.taskRunId.Some? && Unnumbered(ev) && (ev.kind.Task? || ev.kind.Message?)
    ensures Consume(r, ev).run == r
  {
  }

  /** Where the cursor stands after a prefix of a log. */
  ghost predicate CursorCovers<T>(r: Run<T>, log: seq<WireEvent>) {
    && (forall i :: 0 <= i < |log| && !Unnumbered(log[i]) ==>
          (r.cursor.appliedSeq.Some? && log[i].seqNo.value <= r.cursor.appliedSeq.value && !IsFinalMarker(log[i]))
          || (IsTerminalEvent(log[i]) && r.bag.terminalApplied))
    && (r.cursor.appliedSeq.Some? ==>
          exists i :: 0 <= i < |log| && log[i].seqNo == r.cursor.appliedSeq)
  }

  /** What one event can do to the facts the replay law needs. */
  lemma StepFacts<T>(r: Run<T>, ev: WireEvent)
    ensures var r' := Consume(r, ev).run;
            && (r.bag.ctx.taskRunId.Some? ==> r'.bag.ctx.taskRunId == r.bag.ctx.taskRunId)
            && (r.bag.terminalApplied ==> r'.bag.terminalApplied)
            && (IsTerminalEvent(ev) && !IsDuplicate(r, ev) ==> r'.bag.terminalApplied)
            && (r'.cursor.appliedSeq == r.cursor.appliedSeq
                || (ev.seqNo.Some? && r'.cursor.appliedSeq == ev.seqNo))
            && (ev.seqNo.Some? && !IsDuplicate(r, ev) && !IsTerminalEvent(ev) ==> r'.cursor.appliedSeq == ev.seqNo)
  {
    var n := Named(r, ev);
    TerminalEventsTranslateToTerminalFrames(ev, n.bag.ctx, RollingText(ev, n.fullText));
  }

  lemma {:induction false} ConsumedPrefixIsCovered<T>(r0: Run<T>, log: seq<WireEvent>)
    requires WellFormedLog(log) && Fresh(r0)
    ensures CursorCovers(ConsumeAll(r0, log), log)
  {
    hide Consume;
    if log != [] {
      var prefix, ev := log[..|log| - 1], log[|log| - 1];
      ConsumedPrefixIsCovered(r0, prefix);
      var r := ConsumeAll(r0, prefix);
      StepFacts(r, ev);
      var r' := Consume(r, ev).run;
      if r.cursor.appliedSeq.Some? {
        var c :| 0 <= c < |prefix| && prefix[c].seqNo == r.cursor.appliedSeq;
        assert log[c].seqNo == r.cursor.appliedSeq;
        assert ev.seqNo.Some? && !IsFinalMarker(ev) ==> log[c].seqNo.value < log[|log| - 1].seqNo.value;
      }
      assert !IsDuplicate(r, ev);
      forall i | 0 <= i < |log| && !Unnumbered(log[i])
        ensures (r'.cursor.appliedSeq.Some? && log[i].seqNo.value <= r'.cursor.appliedSeq.value && !IsFinalMarker(log[i]))
             || (IsTerminalEvent(log[i]) && r'.bag.terminalApplied)
      {
        if i < |log| - 1 {
          assert prefix[i] == log[i];
          assert ev.seqNo.Some? ==> log[i].seqNo.value <= log[|log| - 1].seqNo.value;
        }
      }
      if r'.cursor.appliedSeq.Some? && r'.cursor.appliedSeq != r.cursor.appliedSeq {
        assert log[|log| - 1].seqNo == r'.cursor.appliedSeq;
      }
    }
  }

  lemma {:induction false} TaskIdStays<T>(r: Run<T>, events: seq<WireEvent>)
    requires r.bag.ctx.taskRunId.Some?
    ensures ConsumeAll(r, events).bag.ctx.taskRunId == r.bag.ctx.taskRunId
  {
    hide Consume;
    if events != [] {
      TaskIdStays(r, events[..|events| - 1]);
      StepFacts(ConsumeAll(r, events[..|events| - 1]), events[|events| - 1]);
    }
  }

  lemma {:induction false} OnlyNumberedEventsMatter<T>(r: Run<T>, events: seq<WireEvent>)
    requires r.bag.ctx.taskRunId.Some?
    requires forall e :: e in events && Unnumbered(e) ==> e.kind.Task? || e.kind.Message?
    ensures ConsumeAll(r, events) == ConsumeAll(r, Numbered(events))
  {
    if events != [] {
      var prefix, ev := events[..|events| - 1], events[|events| - 1];
      OnlyNumberedEventsMatter(r, prefix);
      TaskIdStays(r, prefix);
      if Unnumbered(ev) {
        LifecycleEventIsIgnored(ConsumeAll(r, prefix), ev);
      } else {
        assert (Numbered(prefix) + [ev])[..|Numbered(events)| - 1] == Numbered(prefix);
      }
    }
  }

  lemma {:induction false} TaskIdAtPrefix<T>(r0: Run<T>, log: seq<WireEvent>, n: nat, m: nat)
    requires n <= m <= |log| && ConsumeAll(r0, log[..n]).bag.ctx.taskRunId.Some?
    ensures ConsumeAll(r0, log[..m]).bag.ctx.taskRunId.Some?
  {
    hide Consume;
    if m > n {
      TaskIdAtPrefix(r0, log, n, m - 1);
      StepFacts(ConsumeAll(r0, log[..m - 1]), log[m - 1]);
      assert log[..m][..m - 1] == log[..m - 1];
    }
  }

  /** A numbered event behind the reached position changes nothing when it is read again. */
  lemma ReplayedEventIsIgnored<T>(r0: Run<T>, log: seq<WireEvent>, k: nat, at: nat)
    requires WellFormedLog(log) && Fresh(r0) && k < at <= |log| && !Unnumbered(log[k])
    requires ConsumeAll(r0, log[..at]).bag.ctx.taskRunId.Some?
    ensures Consume(ConsumeAll(r0, log[..at]), log[k]).run == ConsumeAll(r0, log[..at])
  {
    hide Consume;
    ConsumedPrefixIsCovered(r0, log[..at]);
    assert log[..at][k] == log[k];
    AbsorbedIsIgnored(ConsumeAll(r0, log[..at]), log[k]);
  }

  /** Past the cursor every numbered event is replayable; what a replay leaves out has no effect. */
  lemma LeftOutEventIsIgnored<T>(r0: Run<T>, log: seq<WireEvent>, n: nat, k: nat)
    requires WellFormedLog(log) && Fresh(r0) && n <= k < |log|
    requires ConsumeAll(r0, log[..n]).bag.ctx.taskRunId.Some?
    requires !Replayable(log[k], SinceSeq(ConsumeAll(r0, log[..n])))
    ensures ConsumeAll(r0, log[..k + 1]) == ConsumeAll(r0, log[..k])
  {
    hide Consume;
    var cursor := ConsumeAll(r0, log[..n]).cursor.appliedSeq;
    ConsumedPrefixIsCovered(r0, log[..n]);
    if cursor.Some? {
      var i :| 0 <= i < n && log[..n][i].seqNo == cursor;
      assert log[i].seqNo == cursor;
    }
    assert Unnumbered(log[k]);
    TaskIdAtPrefix(r0, log, n, k);
    LifecycleEventIsIgnored(ConsumeAll(r0, log[..k]), log[k]);
    assert log[..k + 1][..k] == log[..k];
  }

  lemma AfterUnfolds(log: seq<WireEvent>, since: int, k: nat)
    requires k < |log|
    ensures After(log[..k + 1], since) == After(log[..k], since) + if Replayable(log[k], since) then [log[k]] else []
  {
    assert log[..k + 1][..k] == log[..k];
  }

  lemma ConsumeOneMore<T>(r: Run<T>, events: seq<WireEvent>, ev: WireEvent)
    ensures ConsumeAll(r, events + [ev]) == Consume(ConsumeAll(r, events), ev).run
  {
    hide Consume;
    assert (events + [ev])[..|events|] == events;
  }

  /** One more replay from the same `since` takes the run from log position `at` to the further of `at` and `reached`. */
  lemma {:induction false} ReplayAdvancesTo<T>(r0: Run<T>, log: seq<WireEvent>, n: nat, at: nat, reached: nat)
    requires WellFormedLog(log) && Fresh(r0) && n <= at <= |log| && reached <= |log|
    requires ConsumeAll(r0, log[..n]).bag.ctx.taskRunId.Some?
    ensures ConsumeAll(ConsumeAll(r0, log[..at]), After(log[..reached], SinceSeq(ConsumeAll(r0, log[..n]))))
         == ConsumeAll(r0, log[..Max(at, reached)])
  {
    hide Consume, WellFormedLog, ConsumeAll, After, Fresh, SinceSeq, Replayable;
    if reached == 0 {
      NothingReplayed(ConsumeAll(r0, log[..at]), log, SinceSeq(ConsumeAll(r0, log[..n])));
    } else {
      var since, k := SinceSeq(ConsumeAll(r0, log[..n])), reached - 1;
      ReplayAdvancesTo(r0, log, n, at, k);
      AfterUnfolds(log, since, k);
      if Replayable(log[k], since) {
        ConsumeOneMore(ConsumeAll(r0, log[..at]), After(log[..k], since), log[k]);
        if k < at {
          TaskIdAtPrefix(r0, log, n, at);
          NumberedWhenReplayable(log[k], since);
          ReplayedEventIsIgnored(r0, log, k, at);
        } else {
          assert log[..k + 1] == log[..k] + [log[k]];
          ConsumeOneMore(r0, log[..k], log[k]);
        }
      } else {
        assert After(log[..k], since) + [] == After(log[..k], since);
        if k >= at { LeftOutEventIsIgnored(r0, log, n, k); }
      }
    }
  }

  lemma NothingReplayed<T>(r: Run<T>, log: seq<WireEvent>, since: int)
    ensures ConsumeAll(r, After(log[..0], since)) == r
  {
    assert log[..0] == [];
  }

  lemma NumberedWhenReplayable(ev: WireEvent, since: int)
    requires Replayable(ev, since)
    ensures !Unnumbered(ev)
  {
  }

  /**
   * Replay is exactly-once. Text, cursor, frames, outcome and everything else of
   * the run equal those of one uninterrupted reading of the furthest prefix.
   */
  lemma {:induction false} ReplayIsExactlyOnce<T>(r0: Run<T>, log: seq<WireEvent>, n: nat, attempts: seq<Attempt>)
    requires WellFormedLog(log) && Fresh(r0) && n <= |log|
    requires ConsumeAll(r0, log[..n]).bag.ctx.taskRunId.Some?
    requires forall a :: a in attempts ==> HonestReplay(log, SinceSeq(ConsumeAll(r0, log[..n])), a)
    ensures n <= Furthest(n, attempts) <= |log|
    ensures ConsumeAttempts(ConsumeAll(r0, log[..n]), attempts) == ConsumeAll(r0, log[..Furthest(n, attempts)])
  {
    if attempts != [] {
      var rest, a := attempts[..|attempts| - 1], attempts[|attempts| - 1];
      ReplayIsExactlyOnce(r0, log, n, rest);
      var at := Furthest(n, rest);
      assert a in attempts;
      TaskIdAtPrefix(r0, log, n, at);
      OnlyNumberedEventsMatter(ConsumeAll(r0, log[..at]), a.delivered);
      ReplayAdvancesTo(r0, log, n, at, a.reached);
    }
  }

  // ------------------------------------------------- what the rolling text means

  function ArtifactText(ev: WireEvent): Option<string> {
    if ev.kind.ArtifactUpdate? then PartsText(ev.member) else None
  }

  /** An artifact that starts the text over. */
  predicate Restarts(ev: WireEvent) { ArtifactText(ev).Some? && Get(ev.member, "append") == Bool(false) }

  function Texts(events: seq<WireEvent>): string {
    if events == [] then "" else Texts(events[..|events| - 1]) + OrElse(ArtifactText(events[|events| - 1]), "")
  }

  /** The part of a log that the rolling text shows: from the last restart on, or all of it. */
  ghost predicate ShownFrom(log: seq<WireEvent>, s: nat) {
    s <= |log| && (forall i :: s < i < |log| ==> !Restarts(log[i]))
  }

  lemma NothingInALogIsDropped<T>(r0: Run<T>, log: seq<WireEvent>)
    requires WellFormedLog(log) && Fresh(r0) && log != []
    ensures !IsDuplicate(Named(ConsumeAll(r0, log[..|log| - 1]), log[|log| - 1]), log[|log| - 1])
  {
    hide Consume;
    var prefix, ev := log[..|log| - 1], log[|log| - 1];
    ConsumedPrefixIsCovered(r0, prefix);
    var cursor := ConsumeAll(r0, prefix).cursor.appliedSeq;
    if cursor.Some? {
      var c :| 0 <= c < |prefix| && prefix[c].seqNo == cursor;
      assert log[c].seqNo == cursor;
      assert ev.seqNo.Some? && !IsFinalMarker(ev) ==> log[c].seqNo.value < log[|log| - 1].seqNo.value;
    }
  }

  lemma TextAfterEvent<T>(r: Run<T>, ev: WireEvent)
    requires !IsDuplicate(Named(r, ev), ev)
    ensures Consume(r, ev).run.fullText == (if Restarts(ev) then "" else r.fullText) + OrElse(ArtifactText(ev), "")
  {
    hide TranslateEvent, PartsText, TaskIdOf, IsDuplicate, BuildRunFailure, StateOf;
    assert r.fullText + "" == r.fullText;
    assert RollingText(ev, r.fullText) == (if Restarts(ev) then "" else r.fullText) + OrElse(ArtifactText(ev), "");
  }

  lemma LastText(log: seq<WireEvent>, s: nat)
    requires s < |log|
    ensures Texts(log[s..]) == Texts(log[..|log| - 1][s..]) + OrElse(ArtifactText(log[|log| - 1]), "")
  {
    hide ArtifactText;
    assert log[s..][..|log[s..]| - 1] == log[..|log| - 1][s..];
  }

  lemma PrefixOfLog(log: seq<WireEvent>)
    requires WellFormedLog(log) && log != []
    ensures WellFormedLog(log[..|log| - 1])
  {
    var prefix := log[..|log| - 1];
    forall i | 0 <= i < |prefix| ensures prefix[i] == log[i] {}
  }

  /** After a log the rolling text is all artifact text since the last restart, each piece exactly once. */
  lemma {:induction false} TextIsEverythingSinceTheLastRestart<T>(r0: Run<T>, log: seq<WireEvent>, s: nat)
    requires WellFormedLog(log) && Fresh(r0) && ShownFrom(log, s)
    requires !(s < |log| && Restarts(log[s])) ==> s == 0
    ensures ConsumeAll(r0, log).fullText == (if s < |log| && Restarts(log[s]) then "" else r0.fullText) + Texts(log[s..])
  {
    hide Consume, WellFormedLog, Fresh, Restarts, ArtifactText, Texts, Named, IsDuplicate;
    if log == [] {
      NoTexts();
      assert log[s..] == [] && r0.fullText + "" == r0.fullText;
    } else {
      var prefix, ev := log[..|log| - 1], log[|log| - 1];
      NothingInALogIsDropped(r0, log);
      TextAfterEvent(ConsumeAll(r0, prefix), ev);
      LastText(log, s);
      PrefixOfLog(log);
      NoTexts();
      if s < |prefix| || prefix == [] {
        assert s < |prefix| ==> prefix[s] == log[s];
        assert prefix == [] ==> s == 0 && prefix[0..] == [] && log[0] == ev;
        TextIsEverythingSinceTheLastRestart(r0, prefix, s);
      } else {
        assert prefix[s..] == [] && log[s] == ev;
      }
    }
  }

  lemma NoTexts()
    ensures Texts([]) == ""
  {
  }

  /** What the user sees after an artifact update is the whole rolling text of the run. */
  lemma ArtifactsShowTheWholeText<T>(r: Run<T>, ev: WireEvent)
    requires ev.kind.ArtifactUpdate? && ArtifactText(ev).Some? && !IsDuplicate(Named(r, ev), ev)
    ensures var n := Consume(r, ev).run;
            if n.fullText == "" then n.frames == r.frames
            else |n.frames| == |r.frames| + 1 && n.frames[..|r.frames|] == r.frames && Shows(n.frames[|r.frames|], "delta", Some(n.fullText))
  {
    hide PartsText, AssistantMessage, TaskIdOf, StateOf, ShownIn;
    var n := Named(r, ev);
    EachEventHasItsFrame(ev, n.bag.ctx, RollingText(ev, r.fullText));
    if RollingText(ev, r.fullText) != "" { FramesSayWhatHappened(ev, n.bag.ctx, RollingText(ev, r.fullText)); }
  }

  /** A chat frame in a state, with a shown text or none. */
  predicate Shows(f: Frame, state: string, text: Option<string>) {
    && StrAt(f.payload, "state") == Some(state)
    && (match text case Some(t) => ShownIn(f.payload) == Some(Str(t)) case None => ShownIn(f.payload).None?)
  }

  /**
   * The parser is told how the run ended: a first terminal event adds one frame
   * that says completed, with the whole text, or aborted, or failed, and the
   * bag's outcome and failure say the same.
   */
  lemma TerminalsSayHowTheRunEnded<T>(r: Run<T>, ev: WireEvent)
    requires Consume(r, ev).verdict != Continue
    ensures var n := Consume(r, ev).run;
            && |n.frames| == |r.frames| + 1 && n.frames[..|r.frames|] == r.frames
            && var f := n.frames[|r.frames|];
            && f.event == "chat"
            && match n.bag.outcome.value
               case Failed => Fails(ev) && Shows(f, "error", None) && n.bag.runFailure == Some(BuildRunFailure(ev.metadata))
               case Cancelled => Cancels(ev) && Shows(f, "aborted", None)
               case Completed => Completes(ev) && Shows(f, "final", Some(n.fullText))
  {
    var named := Named(r, ev);
    var text := RollingText(ev, r.fullText);
    EachEventHasItsFrame(ev, named.bag.ctx, text);
    var out := TranslateEvent(ev, named.bag.ctx, text);
    hide TranslateEvent, PartsText, TaskIdOf, HasErrorCode, ShownIn, StateOf, RollingText, BuildRunFailure, IsFinalMarker, RunIdOf;
    if out.Some? && !CarriesFrame(ev) {
      FramesSayWhatHappened(ev, named.bag.ctx, text);
      ChatFramesNameTheirSession(ev, named.bag.ctx, text);
    }
  }

  /** A recorded failure carries the event's error code and message, with a stand-in for a missing message. */
  lemma FailuresCarryTheirDetails(metadata: Fields)
    ensures var f := BuildRunFailure(metadata);
            && (forall code :: f.errorCode == Some(code) <==> AtKeys(metadata, ["errorCode"]) == Some(Str(code)))
            && (forall message :: AtKeys(metadata, ["errorMessage"]) == Some(Str(message)) ==> f.message == message)
            && (StrAt(metadata, "errorMessage").None? ==> f.message == "a2a run failed")
  {
    AtOneKey(metadata, "errorCode");
    AtOneKey(metadata, "errorMessage");
  }

  /** Where a first event carries the task id. */
  lemma WhereEventsCarryTheirTask(ev: WireEvent, id: string)
    requires id != ""
    ensures TaskIdOf(ev) == id <==> AtKeys(ev.member, [if ev.kind == Task then "id" else "taskId"]) == Some(Str(id))
  {
    AtOneKey(ev.member, if ev.kind == Task then "id" else "taskId");
  }

  /** A fetched COMPLETED result is shown once as a completed run: the fetched text, or what was read so far. */
  lemma FetchedResultsAreShownOnce<T>(r: Run<T>, state: Option<string>, latestText: Option<string>)
    ensures var x := ApplyRecoveredIncomplete(r, state, latestText);
            if state == Some(COMPLETED) && !r.bag.terminalApplied then
              && |x.run.frames| == |r.frames| + 1 && x.run.frames[..|r.frames|] == r.frames
              && var f := x.run.frames[|r.frames|];
              && f.event == "chat" && Shows(f, "final", Some(if latestText.Some? then latestText.value else r.fullText))
              && Get(f.payload, "sessionKey") == Str(r.bag.ctx.sessionKey)
              && Get(f.payload, "request") == Obj(map["sessionKey" := Str(r.bag.ctx.sessionKey)])
              && Get(f.payload, "runId") == Str(if r.bag.ctx.taskRunId.Some? then r.bag.ctx.taskRunId.value else "a2a-run")
              && x.run.bag.outcome == Some(Outcome.Completed) && x.run.fullText == r.fullText
            else x.run == r
  {
    hide AssistantMessage;
    if state == Some(COMPLETED) && !r.bag.terminalApplied {
      var text := OrElse(latestText, r.fullText);
      MessagesAreRead(SynthesizedFinal(r, text).payload, text);
    }
  }
}
