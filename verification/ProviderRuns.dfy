/**
 * Whole runs of providers that share one ban registry: any interleaving of
 * host calls and of the resumptions of everything that is waiting.
 */
module ProviderRuns {
  import opened Json
  import opened Rpc
  import opened Translate
  import opened RunState
  import opened SendBan
  import opened Cancel
  import opened Provider
  import Recovery

  /** Where a request() call is suspended. */
  datatype Phase = AwaitParser | AwaitConnect | AwaitResume | AwaitToken | Streaming | Closing | Recovering | Finished

  /** `ticket` is 0 until the request takes the slot; the bag's text is the request's own index. */
  datatype Request = Request(phase: Phase, ticket: nat, bag: Bag<nat>, text: string)

  datatype ManualPhase = AwaitingParser | Live | Over

  /** A manual recovery round; its bag shares the text of the request it recovers. */
  datatype Manual = Manual(phase: ManualPhase, ticket: nat, bag: Bag<nat>)

  datatype CancelPhase = CancelQueued | CancelInFlight | Probing | CancelDone

  datatype CancelCall = CancelCall(phase: CancelPhase, taskId: string, contextId: string)

  /** What a provider did, in order. */
  datatype Effect =
    | Sent(ticket: nat)
    | Banned(contextId: string)
    | CancelSent(call: nat)
    | Reported(ticket: nat, report: AbortReport)
    | TerminalFed(run: nat)

  datatype Client = Client(rpcUrl: string, scope: Option<string>, core: Core<nat>, requests: seq<Request>,
                           manuals: seq<Manual>, cancels: seq<CancelCall>, log: seq<Effect>)

  datatype BanEffect = NoBan | Place(contextId: string) | Free(contextId: string)

  datatype After = After(client: Client, ban: BanEffect)

  datatype Step =
    | CallRequest(sessionKey: string)
    | ParserReady(r: nat)
    | ConnectDone(r: nat, ok: bool)
    | ConnectResumed(r: nat)
    | HostConnected
    | TokenDone(r: nat, ok: bool)
    | StreamEvent(r: nat, ev: WireEvent, parserDone: bool)
    | StreamBroken(r: nat, typed: bool)
    | StreamEnded(r: nat)
    | RecoveryEvent(r: nat, ev: WireEvent, parserDone: bool)
    | RecoveryDone(r: nat, outcome: Recovery.RecoveryOutcome, parserDone: bool)
    | Abort
    | Disconnect
    | CancelUnterminated
    | CancelToken(c: nat, ok: bool)
    | CancelAnswered(c: nat, answer: CancelAnswer)
    | ProbeDone(c: nat, task: Option<Fields>)
    | ManualCall
    | ManualOpened(m: nat)
    | ManualEvent(m: nat, ev: WireEvent, parserDone: bool)
    | ManualDone(m: nat, outcome: Recovery.RecoveryOutcome, parserDone: bool)

  // ------------------------------------------------------------------- steps

  function InPhase(p: Client, r: nat, phase: Phase): bool { r < |p.requests| && p.requests[r].phase == phase }

  function Moved(p: Client, r: nat, phase: Phase): Client
    requires r < |p.requests|
  {
    p.(requests := p.requests[r := p.requests[r].(phase := phase)])
  }

  function Take(p: Client, r: nat): Client
    requires r < |p.requests|
  {
    p.(core := SlotTaken(p.core),
       requests := p.requests[r := p.requests[r].(phase := AwaitToken, ticket := p.core.generation + 1)])
  }

  function Feed(verdict: Verdict, run: nat): seq<Effect> {
    if verdict == Continue then [] else [TerminalFed(run)]
  }

  function Freed(t: Taken<nat>): BanEffect {
    if t.lifted then Free(t.bag.ctx.sessionKey) else NoBan
  }

  function RequestTook(p: Client, r: nat, t: Taken<nat>, phase: Phase): After
    requires r < |p.requests|
  {
    After(p.(core := t.core,
             requests := p.requests[r := p.requests[r].(bag := t.bag, text := t.text, phase := phase)],
             log := p.log + Feed(t.verdict, r)),
          Freed(t))
  }

  function ManualTook(p: Client, m: nat, t: Taken<nat>, phase: ManualPhase): After
    requires m < |p.manuals| && p.manuals[m].bag.text < |p.requests|
  {
    var r := p.manuals[m].bag.text;
    After(p.(core := t.core,
             manuals := p.manuals[m := p.manuals[m].(bag := t.bag, phase := phase)],
             requests := p.requests[r := p.requests[r].(text := t.text)],
             log := p.log + Feed(t.verdict, r)),
          Freed(t))
  }

  function CancelFired(p: Client, core: Core<nat>, taskId: string, contextId: string, log: seq<Effect>): After {
    After(p.(core := core, cancels := p.cancels + [CancelCall(CancelQueued, taskId, contextId)],
             log := p.log + log + [Banned(contextId)]),
          Place(contextId))
  }

  function BanEffectOf(change: BanChange, contextId: string): BanEffect {
    match change case Lift => Free(contextId) case Keep => Place(contextId) case NoChange => NoBan
  }

  function EventOf(p: Client, r: nat, ev: WireEvent, parserDone: bool): Taken<nat>
    requires r < |p.requests|
  {
    EventTaken(p.core, p.requests[r].ticket, p.requests[r].bag, p.requests[r].text, ev, parserDone)
  }

  function ManualEventOf(p: Client, m: nat, ev: WireEvent, parserDone: bool): Taken<nat>
    requires m < |p.manuals| && p.manuals[m].bag.text < |p.requests|
  {
    EventTaken(p.core, p.manuals[m].ticket, p.manuals[m].bag, p.requests[p.manuals[m].bag.text].text, ev, parserDone)
  }

  predicate ManualIn(p: Client, m: nat, phase: ManualPhase) {
    m < |p.manuals| && p.manuals[m].phase == phase && p.manuals[m].bag.text < |p.requests|
  }

  predicate CancelIn(p: Client, c: nat, phase: CancelPhase) { c < |p.cancels| && p.cancels[c].phase == phase }

  function CancelMoved(p: Client, c: nat, phase: CancelPhase): Client
    requires c < |p.cancels|
  {
    p.(cancels := p.cancels[c := p.cancels[c].(phase := phase)])
  }

  function RequestStep(p: Client, step: Step): After {
    match step
    case CallRequest(sessionKey) =>
      After(p.(requests := p.requests + [Request(AwaitParser, 0, FreshBag(sessionKey, |p.requests|), "")]), NoBan)
    case ParserReady(r) =>
      if !InPhase(p, r, AwaitParser) then After(p, NoBan)
      else if p.core.isRequesting then After(Moved(p, r, Finished), NoBan)
      else if p.core.connected then After(Take(p, r), NoBan)
      else After(Moved(p, r, AwaitConnect), NoBan)
    case ConnectDone(r, ok) =>
      if !InPhase(p, r, AwaitConnect) then After(p, NoBan)
      else if ok then After(Moved(p, r, AwaitResume).(core := Connected(p.core)), NoBan)
      else After(Moved(p, r, Finished), NoBan)
    case ConnectResumed(r) =>
      if !InPhase(p, r, AwaitResume) then After(p, NoBan) else After(Take(p, r), NoBan)
    case HostConnected => After(p.(core := Connected(p.core)), NoBan)
    case TokenDone(r, ok) =>
      if !InPhase(p, r, AwaitToken) then After(p, NoBan)
      else
        var ticket := p.requests[r].ticket;
        var next := p.(core := TokenWaited(p.core, ticket, ok));
        if MaySend(p.core, ticket, ok) then After(Moved(next, r, Streaming).(log := p.log + [Sent(ticket)]), NoBan)
        else After(Moved(next, r, Finished), NoBan)
    case StreamEvent(r, ev, parserDone) =>
      if !InPhase(p, r, Streaming) then After(p, NoBan)
      else
        var t := EventOf(p, r, ev, parserDone);
        RequestTook(p, r, t, if StopsReading(p.core, p.requests[r].ticket, t) then Closing else Streaming)
    case StreamBroken(r, typed) =>
      if !InPhase(p, r, Streaming) then After(p, NoBan)
      else
        var req := p.requests[r];
        var phase := if Recovers(p.core, req.ticket, req.bag, typed) then Recovering else Finished;
        After(Moved(p, r, phase).(core := StreamBroke(p.core, req.ticket, req.bag, typed)), NoBan)
    case StreamEnded(r) =>
      if !InPhase(p, r, Streaming) && !InPhase(p, r, Closing) then After(p, NoBan)
      else After(Moved(p, r, Finished).(core := ReleasedBy(p.core, p.requests[r].ticket)), NoBan)
    case RecoveryEvent(r, ev, parserDone) =>
      if !InPhase(p, r, Recovering) then After(p, NoBan)
      else RequestTook(p, r, EventOf(p, r, ev, parserDone), Recovering)
    case RecoveryDone(r, outcome, parserDone) =>
      if !InPhase(p, r, Recovering) then After(p, NoBan)
      else RequestTook(p, r, RecoveryEnded(p.core, p.requests[r].ticket, p.requests[r].bag, p.requests[r].text, outcome, parserDone), Finished)
    case _ => After(p, NoBan)
  }

  function CancelStep(p: Client, step: Step): After {
    match step
    case Abort =>
      var report := AbortOutcome(p.core);
      var noted := [Reported(p.core.generation, report)];
      (match report
       case WireCancel(taskId, sessionKey) => CancelFired(p, Fenced(p.core), taskId, sessionKey, noted)
       case _ => After(p.(core := Fenced(p.core), log := p.log + noted), NoBan))
    case Disconnect => After(p.(core := Disconnected(p.core)), NoBan)
    case CancelUnterminated =>
      if !HasUnterminatedRecovery(p.core) then After(p, NoBan)
      else CancelFired(p, RoundsFenced(p.core),
                       p.core.run.anchor.value.taskRunId, p.core.run.anchor.value.sessionKey, [])
    case CancelToken(c, ok) =>
      if !CancelIn(p, c, CancelQueued) then After(p, NoBan)
      else if ok then After(CancelMoved(p, c, CancelInFlight).(log := p.log + [CancelSent(c)]), NoBan)
      else After(CancelMoved(p, c, Probing), BanEffectOf(CancelDisposition(CancelUnknown), p.cancels[c].contextId))
    case CancelAnswered(c, answer) =>
      if !CancelIn(p, c, CancelInFlight) then After(p, NoBan)
      else
        var kind := ClassifyCancel(answer).kind;
        After(CancelMoved(p, c, if kind == CancelUnknown then Probing else CancelDone),
              BanEffectOf(CancelDisposition(kind), p.cancels[c].contextId))
    case ProbeDone(c, task) =>
      if !CancelIn(p, c, Probing) then After(p, NoBan)
      else After(CancelMoved(p, c, CancelDone), BanEffectOf(ProbeDisposition(task), p.cancels[c].contextId))
    case _ => After(p, NoBan)
  }

  function ManualStep(p: Client, step: Step): After {
    match step
    case ManualCall =>
      if !HasUnterminatedRecovery(p.core) then After(p, NoBan)
      else After(p.(manuals := p.manuals + [Manual(AwaitingParser, 0, RoundBag(p.core.run.anchor.value))]), NoBan)
    case ManualOpened(m) =>
      if !ManualIn(p, m, AwaitingParser) then After(p, NoBan)
      else After(p.(manuals := p.manuals[m := p.manuals[m].(phase := Live, ticket := p.core.generation)]), NoBan)
    case ManualEvent(m, ev, parserDone) =>
      if !ManualIn(p, m, Live) then After(p, NoBan) else ManualTook(p, m, ManualEventOf(p, m, ev, parserDone), Live)
    case ManualDone(m, outcome, parserDone) =>
      if !ManualIn(p, m, Live) then After(p, NoBan)
      else ManualTook(p, m, IncompleteTaken(p.core, p.manuals[m].bag, p.requests[p.manuals[m].bag.text].text, outcome, parserDone), Over)
    case _ => After(p, NoBan)
  }

  predicate IsCancelStep(step: Step) {
    step.Abort? || step.Disconnect? || step.CancelUnterminated? || step.CancelToken? || step.CancelAnswered? || step.ProbeDone?
  }

  predicate IsManualStep(step: Step) {
    step.ManualCall? || step.ManualOpened? || step.ManualEvent? || step.ManualDone?
  }

  function Next(p: Client, step: Step): After {
    if IsCancelStep(step) then CancelStep(p, step)
    else if IsManualStep(step) then ManualStep(p, step)
    else RequestStep(p, step)
  }

  function Initial(rpcUrl: string, scope: Option<string>): Client {
    Client(rpcUrl, scope, Core(0, false, false, None, Cursor(None, None, false), []), [], [], [], [])
  }

  /** A run of one provider; steps that are not enabled change nothing. */
  function RunClient(p: Client, steps: seq<Step>): Client {
    if steps == [] then p else Next(RunClient(p, steps[..|steps| - 1]), steps[|steps| - 1]).client
  }

  // ------------------------------------------------------------------ fence

  /** The request that a step resumes after it has taken the slot. */
  function Resumes(step: Step): Option<nat> {
    match step
    case TokenDone(r, _) => Some(r)
    case StreamEvent(r, _, _) => Some(r)
    case StreamBroken(r, _) => Some(r)
    case StreamEnded(r) => Some(r)
    case RecoveryEvent(r, _, _) => Some(r)
    case RecoveryDone(r, _, _) => Some(r)
    case _ => None
  }

  /**
   * The generation fence: a resumption of a superseded request leaves the slot,
   * the cursor, the anchor, every text, the parser, the bans and the wire alone.
   */
  lemma StaleResumptionIsInert(p: Client, step: Step, r: nat)
    requires Resumes(step) == Some(r) && r < |p.requests| && p.requests[r].ticket != p.core.generation
    ensures var a := Next(p, step);
            && a.ban == NoBan
            && a.client.core == p.core && a.client.log == p.log
            && a.client.manuals == p.manuals && a.client.cancels == p.cancels
            && a.client.requests == p.requests[r := p.requests[r].(phase := a.client.requests[r].phase)]
  {
    hide Consume;
    var a := Next(p, step);
    assert p.requests[r := p.requests[r]] == p.requests;
    assert p.log + [] == p.log;
  }

  /**
   * What a broken stream does to the current request: it is recovered, slot
   * kept, when its task is known and its outcome is not, and else it returns and
   * gives the slot back.
   */
  lemma BreaksAreRecovered(p: Client, r: nat, typed: bool)
    requires InPhase(p, r, Streaming) && p.requests[r].ticket == p.core.generation
    ensures var n, bag := Next(p, StreamBroken(r, typed)).client, p.requests[r].bag;
            if typed && bag.ctx.taskRunId.Some? && bag.outcome.None? then InPhase(n, r, Recovering) && n.core == p.core
            else InPhase(n, r, Finished) && n.core == p.core.(isRequesting := false)
  {
    hide CancelStep, ManualStep, EventOf, RecoveryEnded;
  }

  /** The read loop goes on exactly while the request is current and its event ends nothing. */
  lemma ReadingStopsAtTheFirstEnd(p: Client, r: nat, ev: WireEvent, parserDone: bool)
    requires InPhase(p, r, Streaming)
    ensures var n := Next(p, StreamEvent(r, ev, parserDone)).client;
            if p.requests[r].ticket == p.core.generation && EventOf(p, r, ev, parserDone).verdict == Continue
            then InPhase(n, r, Streaming) else InPhase(n, r, Closing)
  {
    hide CancelStep, ManualStep, EventOf;
  }

  /** Whatever ends the last wait of a current request ends the request, and the slot is free again. */
  lemma HoldersGiveTheSlotBack(p: Client, r: nat, step: Step)
    requires r < |p.requests| && p.requests[r].ticket == p.core.generation && Resumes(step) == Some(r)
    requires || (p.requests[r].phase == AwaitToken && step == TokenDone(r, false))
             || (p.requests[r].phase in {Streaming, Closing} && step == StreamEnded(r))
             || (p.requests[r].phase == Recovering && step.RecoveryDone?)
    ensures var n := Next(p, step).client; InPhase(n, r, Finished) && !n.core.isRequesting && n.core.generation == p.core.generation
  {
    hide CancelStep, ManualStep, EventOf, ApplyRecoveredIncomplete;
  }

  /** A request that finds the slot free takes it, at once or behind the connection that it waited for; one that finds it taken, or no connection, returns. */
  lemma FreeSlotsAreTaken(p: Client, r: nat, ok: bool)
    ensures InPhase(p, r, AwaitParser) ==>
              var n := Next(p, ParserReady(r)).client;
              if p.core.isRequesting then InPhase(n, r, Finished) && n.core == p.core
              else if p.core.connected then n == Take(p, r)
              else InPhase(n, r, AwaitConnect) && n.core == p.core
    ensures InPhase(p, r, AwaitConnect) ==>
              var n := Next(p, ConnectDone(r, ok)).client;
              if ok then InPhase(n, r, AwaitResume) && n.core == Connected(p.core) else InPhase(n, r, Finished) && n.core == p.core
    ensures InPhase(p, r, AwaitResume) ==> Next(p, ConnectResumed(r)).client == Take(p, r)
    ensures InPhase(p, r, AwaitToken) && p.requests[r].ticket == p.core.generation ==>
              var n := Next(p, TokenDone(r, true)).client;
              InPhase(n, r, Streaming) && n.log == p.log + [Sent(p.requests[r].ticket)] && n.core.dispatched == Some(p.core.generation)
  {
    hide CancelStep, ManualStep, EventOf, RecoveryEnded;
  }

  predicate HasTicket(phase: Phase) { phase in {AwaitToken, Streaming, Closing, Recovering} }

  predicate BeforeTicket(phase: Phase) { phase in {AwaitParser, AwaitConnect, AwaitResume} }

  /** Request `r` holds the current ticket and has not returned yet. */
  predicate Holds(p: Client, r: nat) {
    r < |p.requests| && p.requests[r].ticket == p.core.generation && HasTicket(p.requests[r].phase)
  }

  ghost predicate TicketsAreSound(p: Client) {
    && (forall r :: 0 <= r < |p.requests| ==> p.requests[r].ticket <= p.core.generation)
    && (forall r :: 0 <= r < |p.requests| && BeforeTicket(p.requests[r].phase) ==> p.requests[r].ticket == 0)
    && (forall r :: 0 <= r < |p.requests| && HasTicket(p.requests[r].phase) ==> p.requests[r].ticket > 0)
    && (forall r, s :: 0 <= r < s < |p.requests| && p.requests[r].ticket == p.requests[s].ticket ==> p.requests[r].ticket == 0)
  }

  /** Whenever the slot is taken, the current generation is the ticket of a request that is still running. */
  ghost predicate SlotIsHeld(p: Client) {
    p.core.isRequesting ==> exists r: nat :: Holds(p, r)
  }

  /** A step that moves one request and grants no ticket. */
  predicate OnlyMoves(p: Client, n: Client, r: nat) {
    && n.core.generation == p.core.generation && r < |p.requests| == |n.requests|
    && (n.core.isRequesting ==> p.core.isRequesting)
    && (forall s :: 0 <= s < |p.requests| ==> n.requests[s].ticket == p.requests[s].ticket)
    && (forall s :: 0 <= s < |p.requests| && s != r ==> n.requests[s].phase == p.requests[s].phase)
    && (HasTicket(n.requests[r].phase) ==> HasTicket(p.requests[r].phase))
    && (BeforeTicket(n.requests[r].phase) ==> BeforeTicket(p.requests[r].phase))
    && (n.core.isRequesting && Holds(p, r) ==> HasTicket(n.requests[r].phase))
  }

  ghost predicate FenceInv(p: Client) { TicketsAreSound(p) && SlotIsHeld(p) }

  lemma OnlyMovesIsSound(p: Client, n: Client, r: nat)
    requires FenceInv(p) && OnlyMoves(p, n, r)
    ensures FenceInv(n)
  {
    if n.core.isRequesting {
      var h: nat :| Holds(p, h);
      assert Holds(n, h);
    }
  }

  lemma TakeIsSound(p: Client, r: nat)
    requires FenceInv(p) && r < |p.requests| && BeforeTicket(p.requests[r].phase)
    ensures FenceInv(Take(p, r))
  {
    assert Holds(Take(p, r), r);
  }

  predicate TakesEvents(step: Step) { step.StreamEvent? || step.RecoveryEvent? || step.RecoveryDone? }

  lemma EventStepOnlyMoves(p: Client, step: Step)
    requires TakesEvents(step) && step.r < |p.requests|
    ensures OnlyMoves(p, RequestStep(p, step).client, step.r)
  {
    hide Consume, ApplyRecoveredIncomplete;
  }

  lemma QuietStepOnlyMoves(p: Client, step: Step)
    requires !TakesEvents(step) && !step.CallRequest? && !step.HostConnected? && !IsCancelStep(step) && !IsManualStep(step)
    requires RequestStep(p, step).client != p && RequestStep(p, step).client.core.generation == p.core.generation
    ensures OnlyMoves(p, RequestStep(p, step).client, step.r)
  {
    hide EventOf, RequestTook, RecoveryEnded;
  }

  lemma OtherRequestStepIsFenced(p: Client, step: Step)
    requires FenceInv(p) && !TakesEvents(step) && !step.CallRequest? && !step.HostConnected?
    ensures FenceInv(RequestStep(p, step).client)
  {
    hide FenceInv, OnlyMoves, RecoveryEnded, EventOf, RequestTook;
    var n := RequestStep(p, step).client;
    if n != p && !IsCancelStep(step) && !IsManualStep(step) {
      if n.core.generation != p.core.generation {
        TakeIsSound(p, step.r);
      } else {
        QuietStepOnlyMoves(p, step);
        OnlyMovesIsSound(p, n, step.r);
      }
    }
  }

  lemma RequestStepIsFenced(p: Client, step: Step)
    requires FenceInv(p)
    ensures FenceInv(RequestStep(p, step).client)
  {
    if step.CallRequest? {
      CallIsFenced(p, step);
    } else if step.HostConnected? {
      ConnectedIsFenced(p);
    } else if !TakesEvents(step) {
      OtherRequestStepIsFenced(p, step);
    } else if step.r < |p.requests| {
      EventStepOnlyMoves(p, step);
      OnlyMovesIsSound(p, RequestStep(p, step).client, step.r);
    }
  }

  lemma CallIsFenced(p: Client, step: Step)
    requires FenceInv(p) && step.CallRequest?
    ensures FenceInv(RequestStep(p, step).client)
  {
    var n := RequestStep(p, step).client;
    if n.core.isRequesting {
      var h: nat :| Holds(p, h);
      assert Holds(n, h);
    }
  }

  lemma ConnectedIsFenced(p: Client)
    requires FenceInv(p)
    ensures FenceInv(p.(core := Connected(p.core)))
  {
    if p.core.isRequesting {
      var h: nat :| Holds(p, h);
      assert Holds(p.(core := Connected(p.core)), h);
    }
  }

  /** Steps outside of requests never take the slot and never turn the generation back. */
  predicate OutsideRequests(p: Client, n: Client) {
    && |n.requests| == |p.requests|
    && (forall r :: 0 <= r < |p.requests| ==> n.requests[r].ticket == p.requests[r].ticket && n.requests[r].phase == p.requests[r].phase)
    && n.core.generation >= p.core.generation
    && (n.core.isRequesting ==> p.core.isRequesting && n.core.generation == p.core.generation)
  }

  lemma OutsideIsFenced(p: Client, n: Client)
    requires FenceInv(p) && OutsideRequests(p, n)
    ensures FenceInv(n)
  {
    if n.core.isRequesting {
      var h: nat :| Holds(p, h);
      assert Holds(n, h);
    }
  }

  lemma CancelAndManualStepsStayOutside(p: Client, step: Step)
    requires IsCancelStep(step) || IsManualStep(step)
    ensures OutsideRequests(p, Next(p, step).client)
  {
    hide Consume, ApplyRecoveredIncomplete, ClassifyCancel, ProbeDisposition;
  }

  lemma SlotStep(p: Client, step: Step)
    requires FenceInv(p)
    ensures FenceInv(Next(p, step).client) && Next(p, step).client.core.generation >= p.core.generation
  {
    hide FenceInv, Consume, ApplyRecoveredIncomplete;
    if IsCancelStep(step) || IsManualStep(step) {
      CancelAndManualStepsStayOutside(p, step);
      OutsideIsFenced(p, Next(p, step).client);
    } else {
      RequestStepIsFenced(p, step);
    }
  }

  lemma {:induction false} SlotIsAlwaysHeld(rpcUrl: string, scope: Option<string>, steps: seq<Step>)
    ensures FenceInv(RunClient(Initial(rpcUrl, scope), steps))
  {
    if steps != [] {
      SlotIsAlwaysHeld(rpcUrl, scope, steps[..|steps| - 1]);
      SlotStep(RunClient(Initial(rpcUrl, scope), steps[..|steps| - 1]), steps[|steps| - 1]);
    }
  }

  /** Once superseded a request keeps its old ticket and its bookkeeping for good. */
  lemma {:induction false} SupersededForever(p: Client, steps: seq<Step>, r: nat)
    requires FenceInv(p) && r < |p.requests| && 0 < p.requests[r].ticket < p.core.generation
    ensures var n := RunClient(p, steps);
            && FenceInv(n) && r < |n.requests|
            && n.requests[r].ticket == p.requests[r].ticket < n.core.generation
            && n.requests[r].bag == p.requests[r].bag
  {
    if steps != [] {
      SupersededForever(p, steps[..|steps| - 1], r);
      var before := RunClient(p, steps[..|steps| - 1]);
      SlotStep(before, steps[|steps| - 1]);
      SupersededStep(before, steps[|steps| - 1], r);
    }
  }

  lemma SupersededStep(p: Client, step: Step, r: nat)
    requires TicketsAreSound(p) && r < |p.requests| && 0 < p.requests[r].ticket < p.core.generation
    ensures var n := Next(p, step).client;
            r < |n.requests| && n.requests[r].ticket == p.requests[r].ticket && n.requests[r].bag == p.requests[r].bag
  {
    if IsCancelStep(step) {
      hide RequestStep, ManualStep, ClassifyCancel, ProbeDisposition;
    } else if IsManualStep(step) {
      hide RequestStep, CancelStep, ManualEventOf, IncompleteTaken;
    } else {
      SupersededRequestStep(p, step, r);
      hide Next;
    }
  }

  lemma SupersededRequestStep(p: Client, step: Step, r: nat)
    requires TicketsAreSound(p) && r < |p.requests| && 0 < p.requests[r].ticket < p.core.generation
    requires !IsCancelStep(step) && !IsManualStep(step)
    ensures var n := Next(p, step).client;
            r < |n.requests| && n.requests[r].ticket == p.requests[r].ticket && n.requests[r].bag == p.requests[r].bag
  {
    hide CancelStep, ManualStep;
    if TakesEvents(step) {
      hide Consume, IncompleteTaken;
    } else {
      hide EventOf, RecoveryEnded;
    }
  }
}
