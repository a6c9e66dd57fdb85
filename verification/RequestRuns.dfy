/**
 * One request among all other calls: its run is the uninterrupted reading of
 * its own events, unless a manual round opens in the middle of it.
 */
module RequestRuns {
  import opened Json
  import opened Translate
  import opened RunState
  import opened Provider
  import opened ProviderRuns
  import opened AbortRuns
  import opened Cancel
  import opened TerminalRuns
  import Recovery
  import RecoveredRun

  /** The run of request `r` at the moment it takes the slot. */
  function Begin(r: nat, sessionKey: string): Run<nat> {
    Run(Cursor(None, None, false), FreshBag(sessionKey, r), "", [])
  }

  /** The event that a step brings to request `r`, from its stream or from its recovery. */
  function EventFor(p: Client, step: Step, r: nat): Option<WireEvent> {
    match step
    case StreamEvent(q, ev, _) => if q == r && InPhase(p, r, Streaming) then Some(ev) else None
    case RecoveryEvent(q, ev, _) => if q == r && InPhase(p, r, Recovering) then Some(ev) else None
    case _ => None
  }

  function OwnEvents(p: Client, steps: seq<Step>, r: nat): seq<WireEvent> {
    if steps == [] then []
    else
      var last := |steps| - 1;
      var ev := EventFor(RunClient(p, steps[..last]), steps[last], r);
      OwnEvents(p, steps[..last], r) + if ev.Some? then [ev.value] else []
  }

  function SessionOf(p: Client, r: nat): string
    requires r < |p.requests|
  {
    p.requests[r].bag.ctx.sessionKey
  }

  function RunAt(p: Client, r: nat): Run<nat>
    requires r < |p.requests|
  {
    RunOf(p.core, p.requests[r].bag, p.requests[r].text)
  }

  /** How long the run of a request is watched: until it returns, or until its slot is free. */
  datatype Span = WhileTicket | WhileSlot

  predicate Mine(p: Client, r: nat, span: Span) {
    Holds(p, r) && (span == WhileSlot ==> p.core.isRequesting)
  }

  /** What request `r` has made of its events so far. */
  ghost predicate Isolated(p: Client, r: nat, span: Span, events: seq<WireEvent>) {
    if r >= |p.requests| then events == []
    else
      && (BeforeTicket(p.requests[r].phase) ==>
            events == [] && p.requests[r].text == "" && p.requests[r].bag == Begin(r, SessionOf(p, r)).bag)
      && (Mine(p, r, span) ==> RunAt(p, r) == ConsumeAll(Begin(r, SessionOf(p, r)), events))
  }

  /**
   * A step that brings no manual round between request `r` and its ticket: none
   * opens in the middle of it, and none applies a fetched result after it was
   * superseded.
   */
  predicate Apart(p: Client, step: Step, r: nat, span: Span) {
    match step
    case ManualOpened(m) => ManualIn(p, m, AwaitingParser) ==> !Mine(p, r, span)
    case ManualDone(m, outcome, _) => ManualIn(p, m, Live) && outcome.ResumedIncomplete? ==> p.manuals[m].ticket == p.core.generation
    case _ => true
  }

  ghost predicate Undisturbed(p: Client, steps: seq<Step>, r: nat, span: Span) {
    forall k :: 0 <= k < |steps| ==> Apart(RunClient(p, steps[..k]), steps[k], r, span)
  }

  // -------------------------------------------------------------- what rounds keep

  predicate IsPast(p: Client, r: nat) { r < |p.requests| && !BeforeTicket(p.requests[r].phase) }

  /** The texts that the anchor and the rounds share belong to requests that have had their slot. */
  ghost predicate OwnersArePast(p: Client) {
    && (p.core.run.anchor.Some? ==> IsPast(p, p.core.run.anchor.value.text))
    && (forall m :: 0 <= m < |p.manuals| ==> IsPast(p, p.manuals[m].bag.text))
  }

  /** No round that is under way goes by the ticket of request `r`. */
  ghost predicate RoundsApart(p: Client, r: nat, span: Span) {
    forall m :: 0 <= m < |p.manuals| && p.manuals[m].phase == Live ==>
      p.manuals[m].ticket <= p.core.generation && (Mine(p, r, span) ==> p.manuals[m].ticket != p.core.generation)
  }

  ghost predicate Sound(p: Client, r: nat, span: Span) {
    FenceInv(p) && AnchorFollowsTask(p) && OwnersArePast(p) && RoundsApart(p, r, span)
  }

  lemma OwnersStep(p: Client, step: Step)
    requires FenceInv(p) && AnchorFollowsTask(p) && OwnersArePast(p)
    ensures OwnersArePast(Next(p, step).client)
  {
    hide FenceInv;
    if IsCancelStep(step) {
      OwnersCancelStep(p, step);
    } else if IsManualStep(step) {
      OwnersManualStep(p, step);
    } else if TakesEvents(step) {
      OwnersEventStep(p, step);
    } else {
      OwnersRequestStep(p, step);
    }
  }

  lemma OwnersCancelStep(p: Client, step: Step)
    requires OwnersArePast(p) && IsCancelStep(step)
    ensures OwnersArePast(Next(p, step).client)
  {
    hide ClassifyCancel, ProbeDisposition, RequestStep, ManualStep;
  }

  lemma OwnersManualStep(p: Client, step: Step)
    requires AnchorFollowsTask(p) && OwnersArePast(p) && IsManualStep(step)
    ensures OwnersArePast(Next(p, step).client)
  {
    if step.ManualEvent? {
      OwnersManualEventStep(p, step);
      hide *;
    } else if step.ManualDone? {
      OwnersManualEnd(p, step);
      hide *;
    } else {
      hide RequestStep, CancelStep, ManualEventOf, IncompleteTaken, ManualTook;
    }
  }

  lemma OwnersManualEnd(p: Client, step: Step)
    requires OwnersArePast(p) && step.ManualDone?
    ensures OwnersArePast(Next(p, step).client)
  {
    hide RequestStep, CancelStep, ManualEventOf;
    var n := Next(p, step).client;
    assert n.core.run.anchor == p.core.run.anchor;
  }

  lemma OwnersManualEventStep(p: Client, step: Step)
    requires AnchorFollowsTask(p) && OwnersArePast(p) && step.ManualEvent?
    ensures OwnersArePast(Next(p, step).client)
  {
    hide Consume, RequestStep, CancelStep, IncompleteTaken;
    if ManualIn(p, step.m, Live) {
      ConsumeAnchors(RunOf(p.core, p.manuals[step.m].bag, p.requests[p.manuals[step.m].bag.text].text), step.ev);
    }
  }

  lemma OwnersEventStep(p: Client, step: Step)
    requires AnchorFollowsTask(p) && OwnersArePast(p) && TakesEvents(step)
    ensures OwnersArePast(Next(p, step).client)
  {
    hide EventTaken, RecoveryEnded;
    if step.r < |p.requests| {
      var req := p.requests[step.r];
      if step.RecoveryDone? {
        RecoveryEndKeepsAnchor(p.core, req.ticket, req.bag, req.text, step.outcome, step.parserDone);
      } else {
        EventKeepsAnchor(p.core, req.ticket, req.bag, req.text, step.ev, step.parserDone);
      }
    }
  }

  lemma OwnersRequestStep(p: Client, step: Step)
    requires OwnersArePast(p) && !IsCancelStep(step) && !IsManualStep(step) && !TakesEvents(step)
    ensures OwnersArePast(Next(p, step).client)
  {
    hide Consume, ApplyRecoveredIncomplete, CancelStep, ManualStep;
  }

  /** The ticket of `r` is new, or it was held before at the same generation. */
  lemma MineWasMine(p: Client, step: Step, r: nat, span: Span)
    requires FenceInv(p)
    ensures var n := Next(p, step).client;
            && n.core.generation >= p.core.generation
            && (Mine(n, r, span) && n.core.generation == p.core.generation ==> Mine(p, r, span))
  {
    hide FenceInv;
    SlotStep(p, step);
    if IsCancelStep(step) || IsManualStep(step) {
      CancelAndManualStepsStayOutside(p, step);
      hide Next;
    } else if TakesEvents(step) {
      hide RequestTook, EventOf, RecoveryEnded;
      if step.r < |p.requests| { EventStepOnlyMoves(p, step); }
    } else {
      hide CancelStep, ManualStep;
    }
  }

  lemma RoundsStep(p: Client, step: Step, r: nat, span: Span)
    requires FenceInv(p) && RoundsApart(p, r, span) && Apart(p, step, r, span)
    ensures RoundsApart(Next(p, step).client, r, span)
  {
    MineWasMine(p, step, r, span);
    hide Mine, FenceInv;
    if IsCancelStep(step) {
      hide RequestStep, ManualStep, ClassifyCancel, ProbeDisposition;
    } else if IsManualStep(step) {
      hide RequestStep, CancelStep, ManualEventOf, IncompleteTaken;
    } else {
      OnlyRoundsMoveRounds(p, step);
      hide Next;
    }
  }

  lemma OnlyRoundsMoveRounds(p: Client, step: Step)
    requires !IsManualStep(step)
    ensures Next(p, step).client.manuals == p.manuals
  {
    if IsCancelStep(step) {
      hide RequestStep, ManualStep, ClassifyCancel, ProbeDisposition;
    } else {
      hide CancelStep, ManualStep, EventOf, RecoveryEnded;
    }
  }

  // ----------------------------------------------------------------- the steps

  /** The event step of the request itself. */
  lemma OwnEventStep(p: Client, step: Step, r: nat, span: Span, events: seq<WireEvent>)
    requires FenceInv(p) && Isolated(p, r, span, events) && EventFor(p, step, r).Some?
    ensures Isolated(Next(p, step).client, r, span, events + [EventFor(p, step, r).value])
  {
    hide FenceInv, Isolated, EventOf, RequestTook;
    var t := EventOf(p, r, step.ev, step.parserDone);
    var phase := if step.RecoveryEvent? then Recovering else if StopsReading(p.core, p.requests[r].ticket, t) then Closing else Streaming;
    assert Next(p, step).client == RequestTook(p, r, t, phase).client by { hide CancelStep, ManualStep; }
    hide Next;
    OwnEventIsConsumed(p, r, step.ev, step.parserDone, phase, span, events);
  }

  /** What a current request's event makes of its run. */
  lemma CurrentEventTaken(p: Client, r: nat, ev: WireEvent, parserDone: bool)
    requires r < |p.requests| && p.requests[r].ticket == p.core.generation
    ensures var t := EventOf(p, r, ev, parserDone);
            && RunOf(t.core, t.bag, t.text) == Consume(RunAt(p, r), ev).run
            && t.core.generation == p.core.generation && (t.core.isRequesting ==> p.core.isRequesting)
            && t.bag.ctx.sessionKey == SessionOf(p, r)
  {
    hide Consume;
    ConsumeAnchors(RunAt(p, r), ev);
  }

  lemma OwnEventIsConsumed(p: Client, r: nat, ev: WireEvent, parserDone: bool, phase: Phase, span: Span, events: seq<WireEvent>)
    requires Isolated(p, r, span, events) && r < |p.requests| && HasTicket(p.requests[r].phase) && HasTicket(phase)
    ensures Isolated(RequestTook(p, r, EventOf(p, r, ev, parserDone), phase).client, r, span, events + [ev])
  {
    var t := EventOf(p, r, ev, parserDone);
    if p.requests[r].ticket == p.core.generation {
      CurrentEventTaken(p, r, ev, parserDone);
      ConsumeOneMore(Begin(r, SessionOf(p, r)), events, ev);
      hide EventOf, Consume, ConsumeAll, Begin;
    } else {
      assert t.core == p.core;
      hide Consume, ConsumeAll, Begin;
    }
  }

  /** Every other step. */
  lemma OtherStep(p: Client, step: Step, r: nat, span: Span, events: seq<WireEvent>)
    requires Sound(p, r, span) && Apart(p, step, r, span)
    requires Isolated(p, r, span, events) && EventFor(p, step, r).None?
    ensures Isolated(Next(p, step).client, r, span, events)
  {
    if IsManualStep(step) {
      RoundStep(p, step, r, span, events);
      hide *;
    } else if Resumes(step).Some? && Resumes(step).value != r {
      OthersStep(p, step, r, span, events);
      hide *;
    } else if IsCancelStep(step) {
      CancelStepIsApart(p, step, r, span, events);
      hide *;
    } else {
      RequestStepWithoutEvent(p, step, r, span, events);
      hide *;
    }
  }

  lemma OthersStep(p: Client, step: Step, r: nat, span: Span, events: seq<WireEvent>)
    requires FenceInv(p) && Isolated(p, r, span, events) && Resumes(step).Some? && Resumes(step).value != r
    ensures Isolated(Next(p, step).client, r, span, events)
  {
    OthersStepIsApart(p, step, r);
    hide ConsumeAll, Next, FenceInv;
  }

  lemma CancelStepIsApart(p: Client, step: Step, r: nat, span: Span, events: seq<WireEvent>)
    requires FenceInv(p) && Isolated(p, r, span, events) && IsCancelStep(step)
    ensures Isolated(Next(p, step).client, r, span, events)
  {
    hide ConsumeAll, RequestStep, ManualStep, ClassifyCancel, ProbeDisposition;
  }

  /** A step of a manual round: it rewrites the provider only while request `r` is not concerned. */
  lemma RoundStep(p: Client, step: Step, r: nat, span: Span, events: seq<WireEvent>)
    requires Sound(p, r, span) && Apart(p, step, r, span) && IsManualStep(step) && Isolated(p, r, span, events)
    ensures Isolated(Next(p, step).client, r, span, events)
  {
    MineWasMine(p, step, r, span);
    hide Consume, ApplyRecoveredIncomplete, ConsumeAll, RequestStep, CancelStep, FenceInv, AnchorFollowsTask, Mine;
    assert Next(p, step).client.core.generation == p.core.generation;
  }

  /** A resumption of another request leaves the run of the ticket's holder alone. */
  lemma OthersStepIsApart(p: Client, step: Step, r: nat)
    requires FenceInv(p) && Resumes(step).Some? && Resumes(step).value != r
    ensures var n := Next(p, step).client;
            && |n.requests| == |p.requests| && n.core.generation == p.core.generation
            && (n.core.isRequesting ==> p.core.isRequesting)
            && (r < |p.requests| ==> n.requests[r] == p.requests[r])
            && (Holds(p, r) ==> n.core == p.core)
  {
    hide Consume, ApplyRecoveredIncomplete;
    var s := Resumes(step).value;
    if s < |p.requests| && p.requests[s].ticket != p.core.generation { StaleResumptionIsInert(p, step, s); }
  }

  predicate MayTakeSlot(step: Step) { step.CallRequest? || step.ParserReady? || step.ConnectResumed? }

  lemma RequestStepWithoutEvent(p: Client, step: Step, r: nat, span: Span, events: seq<WireEvent>)
    requires FenceInv(p) && Isolated(p, r, span, events) && EventFor(p, step, r).None?
    requires !IsManualStep(step) && !IsCancelStep(step) && (Resumes(step).Some? ==> Resumes(step).value == r)
    ensures Isolated(Next(p, step).client, r, span, events)
  {
    if MayTakeSlot(step) {
      TakingStep(p, step, r, span, events);
      hide *;
    } else if Resumes(step).Some? {
      OwnResumption(p, step, r, span, events);
      hide *;
    } else {
      hide Consume, ConsumeAll, CancelStep, ManualStep, FenceInv;
    }
  }

  /** A resumption of the request itself that brings no event. */
  lemma OwnResumption(p: Client, step: Step, r: nat, span: Span, events: seq<WireEvent>)
    requires Isolated(p, r, span, events) && EventFor(p, step, r).None? && Resumes(step) == Some(r)
    ensures Isolated(Next(p, step).client, r, span, events)
  {
    hide EventOf, RecoveryEnded, ConsumeAll, CancelStep, ManualStep;
  }

  lemma TakingStep(p: Client, step: Step, r: nat, span: Span, events: seq<WireEvent>)
    requires FenceInv(p) && Isolated(p, r, span, events) && MayTakeSlot(step)
    ensures Isolated(Next(p, step).client, r, span, events)
  {
    RecoveredRun.NothingConsumed(Begin(r, if r < |p.requests| then SessionOf(p, r) else ""));
    hide Consume, ApplyRecoveredIncomplete, ConsumeAll, CancelStep, ManualStep;
  }

  lemma SoundStep(p: Client, step: Step, r: nat, span: Span)
    requires Sound(p, r, span) && Apart(p, step, r, span)
    ensures Sound(Next(p, step).client, r, span)
  {
    hide Next, FenceInv, AnchorFollowsTask, OwnersArePast, RoundsApart, Apart;
    SlotStep(p, step);
    AnchorStep(p, step);
    OwnersStep(p, step);
    RoundsStep(p, step, r, span);
  }

  // --------------------------------------------------------------- the theorem

  /** From any moment on, through any undisturbed continuation. */
  lemma {:induction false} StaysIsolated(p: Client, steps: seq<Step>, r: nat, span: Span, events: seq<WireEvent>)
    requires Sound(p, r, span) && Isolated(p, r, span, events) && Undisturbed(p, steps, r, span)
    ensures Sound(RunClient(p, steps), r, span)
    ensures Isolated(RunClient(p, steps), r, span, events + OwnEvents(p, steps, r))
    decreases |steps|
  {
    hide Sound, Isolated, Next, EventFor, Apart;
    if steps == [] {
      assert events + [] == events;
    } else {
      var last := |steps| - 1;
      var before, sofar := RunClient(p, steps[..last]), events + OwnEvents(p, steps[..last], r);
      forall k | 0 <= k < last ensures Apart(RunClient(p, steps[..last][..k]), steps[..last][k], r, span) {
        assert steps[..last][..k] == steps[..k];
      }
      StaysIsolated(p, steps[..last], r, span, events);
      SoundStep(before, steps[last], r, span);
      SoundIsFenced(before, r, span);
      var ev := EventFor(before, steps[last], r);
      if ev.Some? {
        OwnEventStep(before, steps[last], r, span, sofar);
        assert sofar + [ev.value] == events + OwnEvents(p, steps, r);
      } else {
        OtherStep(before, steps[last], r, span, sofar);
        assert sofar == events + OwnEvents(p, steps, r);
      }
    }
  }

  lemma SoundIsFenced(p: Client, r: nat, span: Span)
    requires Sound(p, r, span)
    ensures FenceInv(p)
  {
  }

  /**
   * While a request holds its ticket its run is what its own events make of a
   * fresh run, whatever requests, aborts, disconnects, cancels and manual rounds
   * do in between, as long as no round opens in the middle of it.
   */
  lemma {:induction false} RunIsIsolated(rpcUrl: string, scope: Option<string>, steps: seq<Step>, r: nat, span: Span)
    requires Undisturbed(Initial(rpcUrl, scope), steps, r, span)
    ensures var first := Initial(rpcUrl, scope);
            Sound(RunClient(first, steps), r, span) && Isolated(RunClient(first, steps), r, span, OwnEvents(first, steps, r))
  {
    var first := Initial(rpcUrl, scope);
    assert Sound(first, r, span) && Isolated(first, r, span, []);
    hide *;
    StaysIsolated(first, steps, r, span, []);
    assert [] + OwnEvents(first, steps, r) == OwnEvents(first, steps, r);
  }

  // ------------------------------------------------------------- with the replay law

  function Delivered(attempts: seq<Attempt>): seq<WireEvent> {
    if attempts == [] then [] else Delivered(attempts[..|attempts| - 1]) + attempts[|attempts| - 1].delivered
  }

  lemma {:induction false} AttemptsAreConsumed(r: Run<nat>, attempts: seq<Attempt>)
    ensures ConsumeAttempts(r, attempts) == ConsumeAll(r, Delivered(attempts))
  {
    hide Consume, ConsumeAll;
    if attempts == [] {
      RecoveredRun.NothingConsumed(r);
    } else {
      var k := |attempts| - 1;
      AttemptsAreConsumed(r, attempts[..k]);
      RecoveredRun.ConsumeInTwoSteps(r, Delivered(attempts[..k]), attempts[k].delivered);
    }
  }

  /**
   * From the wire to the screen: at any moment of any run of the provider, a
   * request that holds its ticket and was brought a prefix of the log and then
   * any number of replays of it stands exactly where one uninterrupted reading
   * of the furthest prefix would stand, as long as no manual round opened in
   * the middle of it.
   */
  lemma {:induction false} RequestEqualsUninterruptedReading(rpcUrl: string, scope: Option<string>, steps: seq<Step>, r: nat, span: Span,
                                          log: seq<WireEvent>, n: nat, attempts: seq<Attempt>)
    requires Undisturbed(Initial(rpcUrl, scope), steps, r, span)
    requires Mine(RunClient(Initial(rpcUrl, scope), steps), r, span)
    requires WellFormedLog(log) && n <= |log|
    requires OwnEvents(Initial(rpcUrl, scope), steps, r) == log[..n] + Delivered(attempts)
    requires var begin := Begin(r, SessionOf(RunClient(Initial(rpcUrl, scope), steps), r));
             && ConsumeAll(begin, log[..n]).bag.ctx.taskRunId.Some?
             && forall a :: a in attempts ==> HonestReplay(log, SinceSeq(ConsumeAll(begin, log[..n])), a)
    ensures var p := RunClient(Initial(rpcUrl, scope), steps);
            && n <= Furthest(n, attempts) <= |log|
            && RunAt(p, r) == ConsumeAll(Begin(r, SessionOf(p, r)), log[..Furthest(n, attempts)])
  {
    var p := RunClient(Initial(rpcUrl, scope), steps);
    var begin := Begin(r, SessionOf(p, r));
    RunIsIsolated(rpcUrl, scope, steps, r, span);
    assert RunAt(p, r) == ConsumeAll(begin, log[..n] + Delivered(attempts));
    hide Consume, ConsumeAll, WellFormedLog, HonestReplay, RunClient, Isolated, OwnEvents, Sound, Undisturbed;
    RecoveredRun.ConsumeInTwoSteps(begin, log[..n], Delivered(attempts));
    AttemptsAreConsumed(ConsumeAll(begin, log[..n]), attempts);
    ReplayIsExactlyOnce(begin, log, n, attempts);
  }

  // ------------------------------------------------ a round in the middle of a request

  /** A lifecycle event with the next number: it shows nothing and moves the cursor. */
  function NextMessage(c: Cursor<nat>): WireEvent {
    WireEvent(Some(OrElse(c.appliedSeq, 0) + 1), Message, map[], map[])
  }

  /** A live round that goes by the current ticket writes the provider's cursor, whoever else holds that ticket. */
  lemma CurrentRoundMovesTheCursor(p: Client, m: nat)
    requires ManualIn(p, m, Live) && p.manuals[m].ticket == p.core.generation
    ensures var ev := NextMessage(p.core.run);
            var n := Next(p, ManualEvent(m, ev, false)).client;
            && n.core == p.core.(run := n.core.run)
            && n.core.run == p.core.run.(appliedSeq := ev.seqNo) != p.core.run
            && n.requests == p.requests
  {
    var ev := NextMessage(p.core.run);
    var q := p.manuals[m].bag.text;
    var r := RunOf(p.core, p.manuals[m].bag, p.requests[q].text);
    assert !IsFinalMarker(ev) && TaskIdOf(ev) == "";
    assert Consume(r, ev).run == Advanced(r, ev.seqNo);
    assert p.requests[q := p.requests[q].(text := p.requests[q].text)] == p.requests;
  }

  /** The calls of request() and manualRecover() in one tick, with the round's parser wait ending last. */
  function SwappedCalls(m: nat, r: nat): seq<Step> { [] + [ManualCall] + [ParserReady(r)] + [ManualOpened(m)] }

  lemma OldRoundAdoptsTheNewTicket(p: Client, r: nat)
    requires HasUnterminatedRecovery(p.core) && p.core.connected && InPhase(p, r, AwaitParser) && AnchorFollowsTask(p)
    ensures var m := |p.manuals|;
            var n := RunClient(p, SwappedCalls(m, r));
            && Holds(n, r) && n.core == SlotTaken(p.core) && ManualIn(n, m, Live)
            && n.manuals[m].ticket == n.core.generation == n.requests[r].ticket
            && n.manuals[m].bag == RoundBag(p.core.run.anchor.value)
            && !Apart(RunClient(p, [] + [ManualCall] + [ParserReady(r)]), ManualOpened(m), r, WhileSlot)
            && OwnEvents(p, SwappedCalls(m, r), r) == []
  {
    var m := |p.manuals|;
    hide RunClient, OwnEvents;
    OneMoreStep(p, [], ManualCall);
    OneMoreStep(p, [] + [ManualCall], ParserReady(r));
    OneMoreStep(p, [] + [ManualCall] + [ParserReady(r)], ManualOpened(m));
    NothingRun(p);
    NoOwnEvents(p, SwappedCalls(m, r), r);
    SwappedInOrder(p, r);
    hide Next;
  }

  lemma SwappedInOrder(p: Client, r: nat)
    requires HasUnterminatedRecovery(p.core) && p.core.connected && InPhase(p, r, AwaitParser) && AnchorFollowsTask(p)
    ensures var m := |p.manuals|;
            var taken := Next(Next(p, ManualCall).client, ParserReady(r)).client;
            var n := Next(taken, ManualOpened(m)).client;
            && Holds(n, r) && n.core == SlotTaken(p.core) && ManualIn(n, m, Live)
            && n.manuals[m].ticket == n.core.generation == n.requests[r].ticket
            && n.manuals[m].bag == RoundBag(p.core.run.anchor.value)
            && !Apart(taken, ManualOpened(m), r, WhileSlot)
  {
    hide CancelStep, EventOf, RecoveryEnded, ManualEventOf, IncompleteTaken;
  }

  lemma {:induction false} NoOwnEvents(p: Client, steps: seq<Step>, r: nat)
    requires forall step :: step in steps ==> !step.StreamEvent? && !step.RecoveryEvent?
    ensures OwnEvents(p, steps, r) == []
  {
    hide RunClient;
    if steps != [] { NoOwnEvents(p, steps[..|steps| - 1], r); }
  }

  /**
   * The gate of a manual round is not tested again after the wait for the
   * parser. A round of an old run then writes the cursor of a new request that
   * has received nothing; a final marker of the old run ends the new request's
   * slot and settles its run.
   */
  lemma OldRoundRewritesANewRequest(p: Client, r: nat, marker: WireEvent)
    requires HasUnterminatedRecovery(p.core) && p.core.connected && InPhase(p, r, AwaitParser) && AnchorFollowsTask(p)
    requires IsFinalMarker(marker)
    ensures var m := |p.manuals|;
            var message := NextMessage(Cursor(None, None, false));
            var steps := SwappedCalls(m, r) + [ManualEvent(m, message, false)];
            var n := RunClient(p, steps);
            Holds(n, r) && n.core.isRequesting && OwnEvents(p, steps, r) == [] && RunAt(n, r).cursor.appliedSeq == message.seqNo
    ensures var m := |p.manuals|;
            var steps := SwappedCalls(m, r) + [ManualEvent(m, marker, true)];
            var n := RunClient(p, steps);
            Holds(n, r) && !n.core.isRequesting && OwnEvents(p, steps, r) == [] && n.core.run.runSettled && n.core.frames != []
  {
    var m := |p.manuals|;
    var message := NextMessage(Cursor(None, None, false));
    OldRoundAdoptsTheNewTicket(p, r);
    var n := RunClient(p, SwappedCalls(m, r));
    OneMoreStep(p, SwappedCalls(m, r), ManualEvent(m, message, false));
    OneMoreStep(p, SwappedCalls(m, r), ManualEvent(m, marker, true));
    hide RunClient, SwappedCalls, TranslateEvent;
    NoOwnEvents(p, SwappedCalls(m, r) + [ManualEvent(m, message, false)], r);
    NoOwnEvents(p, SwappedCalls(m, r) + [ManualEvent(m, marker, true)], r);
    CurrentRoundMovesTheCursor(n, m);
    MarkerOfARoundEndsTheSlot(n, m, marker);
  }

  /** Providers of this kind do occur: an exhausted recovery leaves one behind, and the host calls again. */
  lemma {:induction false} UnterminatedRunsAreReachable(rpcUrl: string, scope: Option<string>, id: string) returns (steps: seq<Step>, r: nat)
    requires id != ""
    ensures var p := RunClient(Initial(rpcUrl, scope), steps);
            HasUnterminatedRecovery(p.core) && p.core.connected && InPhase(p, r, AwaitParser) && AnchorFollowsTask(p)
  {
    var first := Initial(rpcUrl, scope);
    var accepted := WireEvent(None, Task, map["id" := Str(id)], map[]);
    assert TaskIdOf(accepted) == id && !IsFinalMarker(accepted);
    var begun := Begun();
    BegunStreams(rpcUrl, scope);
    var streaming := RunClient(first, begun);
    hide RunClient, Next, TaskIdOf, Begun, IsFinalMarker;
    EndsUnterminated(streaming, accepted, id);
    steps, r := begun + [StreamEvent(0, accepted, false)] + [StreamBroken(0, true)] + [RecoveryDone(0, Recovery.BudgetExhausted, false)]
                + [CallRequest("")], 1;
    OneMoreStep(first, begun, StreamEvent(0, accepted, false));
    OneMoreStep(first, begun + [StreamEvent(0, accepted, false)], StreamBroken(0, true));
    OneMoreStep(first, begun + [StreamEvent(0, accepted, false)] + [StreamBroken(0, true)], RecoveryDone(0, Recovery.BudgetExhausted, false));
    OneMoreStep(first, begun + [StreamEvent(0, accepted, false)] + [StreamBroken(0, true)] + [RecoveryDone(0, Recovery.BudgetExhausted, false)],
                CallRequest(""));
    AbortTellsTheTruth(rpcUrl, scope, steps);
  }

  /** So do overlapping rounds: the host calls for a second one before the first has ended. */
  lemma {:induction false} OverlapsAreReachable(rpcUrl: string, scope: Option<string>, id: string) returns (steps: seq<Step>)
    requires id != ""
    ensures Overlaps(RunClient(Initial(rpcUrl, scope), steps))
  {
    var begun, r := UnterminatedRunsAreReachable(rpcUrl, scope, id);
    steps := begun + [ManualCall];
    OneMoreStep(Initial(rpcUrl, scope), begun, ManualCall);
    EachCallOverlapsWithTheNext(RunClient(Initial(rpcUrl, scope), begun));
  }

  function Begun(): seq<Step> { [] + [HostConnected] + [CallRequest("")] + [ParserReady(0)] + [TokenDone(0, true)] }

  lemma BegunStreams(rpcUrl: string, scope: Option<string>)
    ensures var p := RunClient(Initial(rpcUrl, scope), Begun());
            && InPhase(p, 0, Streaming) && |p.requests| == 1 && p.core.connected && p.requests[0].ticket == p.core.generation
            && p.core.run == Cursor(None, None, false) && p.requests[0].bag == Begin(0, "").bag
  {
    var first := Initial(rpcUrl, scope);
    hide RunClient;
    OneMoreStep(first, [], HostConnected);
    OneMoreStep(first, [] + [HostConnected], CallRequest(""));
    OneMoreStep(first, [] + [HostConnected] + [CallRequest("")], ParserReady(0));
    OneMoreStep(first, [] + [HostConnected] + [CallRequest("")] + [ParserReady(0)], TokenDone(0, true));
    NothingRun(first);
    BegunInOrder(first);
    hide Next;
  }

  lemma NothingRun(p: Client)
    ensures RunClient(p, []) == p
  {
  }

  lemma BegunInOrder(first: Client)
    requires first == Initial(first.rpcUrl, first.scope)
    ensures var p := Next(Next(Next(Next(first, HostConnected).client, CallRequest("")).client, ParserReady(0)).client, TokenDone(0, true)).client;
            && InPhase(p, 0, Streaming) && |p.requests| == 1 && p.core.connected && p.requests[0].ticket == p.core.generation
            && p.core.run == Cursor(None, None, false) && p.requests[0].bag == Begin(0, "").bag
  {
    hide CancelStep, ManualStep, EventOf, RecoveryEnded;
  }

  lemma EndsUnterminated(p: Client, ev: WireEvent, id: string)
    requires InPhase(p, 0, Streaming) && |p.requests| == 1 && p.core.connected && p.requests[0].ticket == p.core.generation
    requires p.core.run == Cursor(None, None, false) && p.requests[0].bag == Begin(0, "").bag
    requires ev.kind.Task? && ev.seqNo.None? && TaskIdOf(ev) == id != "" && !IsFinalMarker(ev)
    ensures var n := Next(Next(Next(Next(p, StreamEvent(0, ev, false)).client, StreamBroken(0, true)).client,
                               RecoveryDone(0, Recovery.BudgetExhausted, false)).client, CallRequest("")).client;
            HasUnterminatedRecovery(n.core) && n.core.connected && InPhase(n, 1, AwaitParser)
  {
    KnowsItsTask(p, ev, id);
    hide TaskIdOf, IsFinalMarker, Begin;
    StopsUnterminated(Next(p, StreamEvent(0, ev, false)).client);
  }

  predicate KnowsTask(p: Client) {
    && InPhase(p, 0, Streaming) && |p.requests| == 1 && p.core.connected && p.requests[0].ticket == p.core.generation
    && p.core.run.anchor.Some? && !p.core.run.runSettled
    && p.requests[0].bag.ctx.taskRunId.Some? && p.requests[0].bag.outcome.None?
  }

  lemma KnowsItsTask(p: Client, ev: WireEvent, id: string)
    requires InPhase(p, 0, Streaming) && |p.requests| == 1 && p.core.connected && p.requests[0].ticket == p.core.generation
    requires p.core.run == Cursor(None, None, false) && p.requests[0].bag == Begin(0, "").bag
    requires ev.kind.Task? && ev.seqNo.None? && TaskIdOf(ev) == id != "" && !IsFinalMarker(ev)
    ensures KnowsTask(Next(p, StreamEvent(0, ev, false)).client)
  {
    hide TaskIdOf, IsFinalMarker;
    var r := RunOf(p.core, p.requests[0].bag, p.requests[0].text);
    assert Consume(r, ev).run == Named(r, ev) && Consume(r, ev).verdict == Continue;
    hide Consume;
  }

  lemma StopsUnterminated(p: Client)
    requires KnowsTask(p)
    ensures var n := Next(Next(Next(p, StreamBroken(0, true)).client, RecoveryDone(0, Recovery.BudgetExhausted, false)).client, CallRequest("")).client;
            HasUnterminatedRecovery(n.core) && n.core.connected && InPhase(n, 1, AwaitParser)
  {
    hide Consume, CancelStep, ManualStep;
  }

  lemma MarkerOfARoundEndsTheSlot(p: Client, m: nat, ev: WireEvent)
    requires ManualIn(p, m, Live) && p.manuals[m].ticket == p.core.generation && !p.manuals[m].bag.terminalApplied
    requires IsFinalMarker(ev)
    ensures var n := Next(p, ManualEvent(m, ev, true)).client;
            && n.core.generation == p.core.generation && |n.requests| == |p.requests|
            && (forall r :: Holds(p, r) ==> Holds(n, r))
            && !n.core.isRequesting && n.core.run.runSettled && n.core.frames != []
  {
    hide TranslateEvent;
    var r := RunOf(p.core, p.manuals[m].bag, p.requests[p.manuals[m].bag.text].text);
    TerminalEventsTranslateToTerminalFrames(ev, Named(r, ev).bag.ctx, RollingText(ev, r.fullText));
    ConsumeMarksTerminal(r, ev);
    assert |Consume(r, ev).run.frames| == |r.frames| + 1;
  }

  // ------------------------------------------------------ exactly when a round may open

  /** Every undisturbed continuation finds the run of `r` in what its own events make of it. */
  ghost predicate StaysApart(p: Client, r: nat, span: Span, events: seq<WireEvent>) {
    forall steps :: Undisturbed(p, steps, r, span) ==> Isolated(RunClient(p, steps), r, span, events + OwnEvents(p, steps, r))
  }

  /** A round may open without touching request `r` in any continuation exactly when `r` does not hold the ticket. */
  lemma {:induction false} RoundMayOpenExactlyOutsideTheTicket(p: Client, m: nat, r: nat, span: Span, events: seq<WireEvent>)
    requires Sound(p, r, span) && Isolated(p, r, span, events) && ManualIn(p, m, AwaitingParser)
    ensures StaysApart(Next(p, ManualOpened(m)).client, r, span, events) <==> !Mine(p, r, span)
  {
    hide Sound, Isolated;
    var n := Next(p, ManualOpened(m)).client;
    if Mine(p, r, span) {
      OpenedRoundIsNotApart(p, m, r, span, events);
    } else {
      assert Apart(p, ManualOpened(m), r, span);
      SoundStep(p, ManualOpened(m), r, span);
      OtherStep(p, ManualOpened(m), r, span, events);
      forall steps | Undisturbed(n, steps, r, span) ensures Isolated(RunClient(n, steps), r, span, events + OwnEvents(n, steps, r)) {
        StaysIsolated(n, steps, r, span, events);
      }
    }
  }

  lemma OpenedRoundIsNotApart(p: Client, m: nat, r: nat, span: Span, events: seq<WireEvent>)
    requires ManualIn(p, m, AwaitingParser) && Mine(p, r, span) && Isolated(p, r, span, events)
    ensures !StaysApart(Next(p, ManualOpened(m)).client, r, span, events)
  {
    hide Consume, ConsumeAll;
    var n := Next(p, ManualOpened(m)).client;
    var step := ManualEvent(m, NextMessage(n.core.run), false);
    CurrentRoundMovesTheCursor(n, m);
    assert RunClient(n, []) == n;
    OneMoreStep(n, [], step);
    assert [] + [step] == [step];
    NoOwnEvents(n, [step], r);
    assert events + OwnEvents(n, [step], r) == events;
    assert Undisturbed(n, [step], r, span);
    var after := RunClient(n, [step]);
    assert Mine(after, r, span) && RunAt(after, r) != RunAt(p, r);
    assert !Isolated(after, r, span, events);
  }

  /**
   * What the provider could test after the wait: opening a round leaves the run
   * of every request in the slot alone, in every continuation, exactly when the
   * slot is free.
   */
  lemma {:induction false} RetestingTheSlotIsExact(p: Client, m: nat, events: nat -> seq<WireEvent>)
    requires forall r: nat :: Sound(p, r, WhileSlot) && Isolated(p, r, WhileSlot, events(r))
    requires ManualIn(p, m, AwaitingParser)
    ensures (forall r: nat :: StaysApart(Next(p, ManualOpened(m)).client, r, WhileSlot, events(r))) <==> !p.core.isRequesting
  {
    hide Isolated, StaysApart, Next;
    forall r: nat ensures StaysApart(Next(p, ManualOpened(m)).client, r, WhileSlot, events(r)) <==> !Mine(p, r, WhileSlot) {
      assert Sound(p, r, WhileSlot);
      RoundMayOpenExactlyOutsideTheTicket(p, m, r, WhileSlot, events(r));
    }
    assert Sound(p, 0, WhileSlot);
    if p.core.isRequesting {
      var r: nat :| Holds(p, r);
      assert Mine(p, r, WhileSlot);
    }
  }
}
