/**
 * The provider's synchronous blocks between awaits (A2AProvider.ts), first as
 * functions of its fields, then as the methods of the object.
 */
module Provider {
  import opened Json
  import opened Rpc
  import opened Translate
  import opened RunState
  import opened RunEngine
  import opened SendBan
  import opened Cancel
  import Recovery

  /** The fields of one provider, with the log of its parser. */
  datatype Core<+T> = Core(generation: nat, isRequesting: bool, connected: bool, dispatched: Option<nat>,
                           run: Cursor<T>, frames: seq<Frame>)

  function RunOf<T>(c: Core<T>, bag: Bag<T>, text: string): Run<T> { Run(c.run, bag, text, c.frames) }

  /** request() takes the slot and a new ticket, and resets cursor, anchor and parser. */
  function SlotTaken<T>(c: Core<T>): Core<T> {
    c.(generation := c.generation + 1, isRequesting := true, run := Cursor(None, None, false), frames := [])
  }

  function Released<T>(c: Core<T>): Core<T> { c.(isRequesting := false) }

  /** The token arrived: a current request is now on the wire. */
  function TokenArrived<T>(c: Core<T>, ticket: nat): Core<T> {
    if ticket == c.generation then c.(dispatched := Some(ticket)) else c
  }

  /** A late failure or end of a superseded request touches nothing. */
  function ReleasedBy<T>(c: Core<T>, ticket: nat): Core<T> {
    if ticket == c.generation then Released(c) else c
  }

  /** The wait for the token is over; only a current request with a token goes on to send. */
  function TokenWaited<T>(c: Core<T>, ticket: nat, ok: bool): Core<T> {
    if ok then TokenArrived(c, ticket) else ReleasedBy(c, ticket)
  }

  predicate MaySend<T>(c: Core<T>, ticket: nat, ok: bool) { ok && ticket == c.generation }

  /** A broken stream is recovered for a current request whose task is known and whose outcome is not. */
  predicate Recovers<T>(c: Core<T>, ticket: nat, bag: Bag<T>, typed: bool) {
    ticket == c.generation && typed && bag.ctx.taskRunId.Some? && bag.outcome.None?
  }

  function StreamBroke<T>(c: Core<T>, ticket: nat, bag: Bag<T>, typed: bool): Core<T> {
    if Recovers(c, ticket, bag, typed) then c else ReleasedBy(c, ticket)
  }

  function Connected<T>(c: Core<T>): Core<T> { c.(connected := true) }

  /** The account of a request that has seen nothing yet. */
  function FreshBag<T>(sessionKey: string, text: T): Bag<T> { Bag(Context(sessionKey, None), text, None, None, false) }

  /** The account of a manual round: it goes on with the anchor's task and text. */
  function RoundBag<T>(anchor: Anchor<T>): Bag<T> {
    Bag(Context(anchor.sessionKey, Some(anchor.taskRunId)), anchor.text, None, None, false)
  }

  datatype Taken<+T> = Taken(core: Core<T>, bag: Bag<T>, text: string, verdict: Verdict, lifted: bool)

  function WithRun<T>(c: Core<T>, x: Consumed<T>, parserDone: bool): Taken<T> {
    Taken(c.(run := x.run.cursor, frames := x.run.frames,
             isRequesting := c.isRequesting && !(parserDone && x.run.frames != c.frames)),
          x.run.bag, x.run.fullText, x.verdict, x.lifted)
  }

  /** An event behind the generation fence; `parserDone` says that the parser completed on its frame. */
  function EventTaken<T>(c: Core<T>, ticket: nat, bag: Bag<T>, text: string, ev: WireEvent, parserDone: bool): Taken<T> {
    if ticket != c.generation then Taken(c, bag, text, Continue, false)
    else WithRun(c, Consume(RunOf(c, bag, text), ev), parserDone)
  }

  /** The read loop stops at an event behind the fence and at a terminal. */
  predicate StopsReading<T>(c: Core<T>, ticket: nat, t: Taken<T>) { ticket != c.generation || t.verdict != Continue }

  function IncompleteTaken<T>(c: Core<T>, bag: Bag<T>, text: string, outcome: Recovery.RecoveryOutcome, parserDone: bool): Taken<T> {
    match outcome
    case ResumedIncomplete(state, latest) =>
      WithRun(c, ApplyRecoveredIncomplete(RunOf(c, bag, text), state, latest), parserDone)
    case _ => Taken(c, bag, text, Continue, false)
  }

  /** The end of an automatic recovery frees the slot of a current request and may show a fetched result. */
  function RecoveryEnded<T>(c: Core<T>, ticket: nat, bag: Bag<T>, text: string, outcome: Recovery.RecoveryOutcome, parserDone: bool): Taken<T> {
    if ticket != c.generation then Taken(c, bag, text, Continue, false)
    else IncompleteTaken(Released(c), bag, text, outcome, parserDone)
  }

  /** What abort() reports: nothing in flight, a cancel on the wire, an unknown outcome, or nothing was sent. */
  datatype AbortReport = Idle | WireCancel(taskRunId: string, sessionKey: string) | OutcomeUnknown | NeverSent

  function AbortOutcome<T>(c: Core<T>): AbortReport {
    if !c.isRequesting then Idle
    else if c.run.anchor.Some? then WireCancel(c.run.anchor.value.taskRunId, c.run.anchor.value.sessionKey)
    else if c.dispatched == Some(c.generation) then OutcomeUnknown
    else NeverSent
  }

  function Fenced<T>(c: Core<T>): Core<T> { c.(generation := c.generation + 1, isRequesting := false) }

  function Disconnected<T>(c: Core<T>): Core<T> { Fenced(c).(connected := false) }

  /** Cancelling an unterminated task moves the fence alone. */
  function RoundsFenced<T>(c: Core<T>): Core<T> { c.(generation := c.generation + 1) }

  /** An anchor without a settled run and without a request in flight can still be recovered or cancelled. */
  predicate HasUnterminatedRecovery<T>(c: Core<T>) {
    c.run.anchor.Some? && !c.run.runSettled && !c.isRequesting
  }

  /** How request() ends for its caller. */
  datatype Settlement =
    | Quiet
    | CancelledComplete
    | RunFailed(failure: RunFailure)
    | Signal(reason: string, cause: Option<WireFailure>)

  function SettleRun<T>(bag: Bag<T>): Settlement {
    if bag.outcome == Some(Outcome.Failed) && bag.runFailure.Some? then RunFailed(bag.runFailure.value)
    else if bag.outcome == Some(Outcome.Cancelled) then CancelledComplete
    else Quiet
  }

  function SettleRecovery<T>(bag: Bag<T>, outcome: Recovery.RecoveryOutcome): Settlement {
    match outcome
    case ResumedIncomplete(_, _) => Signal("recovery_incomplete", None)
    case UnknownResult => Signal("recovery_outcome_unknown", None)
    case BudgetExhausted => Signal("recovery_stopped", None)
    case Fatal(failure) => Signal("recovery_stopped", Some(failure))
    case _ => SettleRun(bag)
  }

  /** The ban a cancel answer leaves behind: lifted on evidence, kept (or set again) otherwise. */
  datatype BanChange = Lift | Keep | NoChange

  function CancelDisposition(kind: CancelKind): BanChange {
    match kind
    case CancelledClean => Lift
    case CancelRejected => Lift
    case CancelledUnconfirmed => Keep
    case CancelUnknown => Keep
    case CancelRejectedUnknown => Keep
    case TaskOutcomeUnknown => NoChange
  }

  /** The probe after an unknown cancel lifts the ban only on a terminal state that is no cancellation. */
  function ProbeDisposition(task: Option<Fields>): BanChange {
    if task.Some? && StateOf(task.value) in {COMPLETED, FAILED} then Lift else NoChange
  }

  class A2AProvider {
    var generation: nat
    var isRequesting: bool
    var connected: bool
    var dispatchedGeneration: Option<nat>
    const run: A2aRunEngine
    const rpcUrl: string
    const scope: Option<string>

    constructor (parser: SdkParser, sendBan: SendBanRegistry, rpcUrl: string, scope: Option<string>)
      ensures Wired() && run.parser == parser && run.sendBan == sendBan && fresh(run)
      ensures this.rpcUrl == rpcUrl && this.scope == scope
      ensures View() == Core(0, false, false, None, Cursor(None, None, false), parser.frames)
    {
      generation, isRequesting, connected, dispatchedGeneration := 0, false, false, None;
      this.rpcUrl, this.scope := rpcUrl, scope;
      run := new A2aRunEngine(parser, sendBan, rpcUrl, scope);
    }

    predicate Wired() { run.rpcUrl == rpcUrl && run.scope == scope }

    function View(): Core<RollingTextCell> reads this, run, run.parser {
      Core(generation, isRequesting, connected, dispatchedGeneration, run.Position(), run.parser.frames)
    }

    method ConnectionEstablished()
      modifies this`connected
      ensures View() == Connected(old(View()))
    {
      connected := true;
    }

    method Disconnect()
      modifies this
      ensures View() == Disconnected(old(View()))
    {
      generation := generation + 1;
      isRequesting := false;
      connected := false;
    }

    /** The block of request() from the free slot to the wait for the token. */
    method TakeSlot(sessionKey: string) returns (ticket: nat, bag: RunOutcomeBag)
      modifies this, run, run.parser
      ensures View() == SlotTaken(old(View())) && ticket == generation
      ensures fresh(bag) && fresh(bag.state) && bag.state.fullText == ""
      ensures bag.View() == FreshBag(sessionKey, bag.state)
    {
      isRequesting := true;
      generation := generation + 1;
      ticket := generation;
      run.appliedSeq, run.recoveryAnchor := None, None;
      run.parser.Reset();
      var cell := new RollingTextCell();
      run.runSettled := false;
      bag := new RunOutcomeBag(Context(sessionKey, None), cell);
    }

    method OnToken(ticket: nat, ok: bool) returns (send: bool)
      modifies this
      ensures View() == TokenWaited(old(View()), ticket, ok)
      ensures send <==> MaySend(old(View()), ticket, ok)
    {
      send := false;
      if ticket != generation { return; }
      if ok {
        dispatchedGeneration := Some(ticket);
        send := true;
      } else {
        isRequesting := false;
      }
    }

    method OnEvent(ticket: nat, ev: WireEvent, bag: RunOutcomeBag, parserDone: bool) returns (stop: bool)
      requires Wired() && run.sendBan.Valid()
      modifies this, run, run.parser, run.sendBan, bag, bag.state
      ensures var t := EventTaken(old(View()), ticket, old(bag.View()), old(bag.state.fullText), ev, parserDone);
              && View() == t.core && bag.View() == t.bag && bag.state.fullText == t.text
              && (stop <==> StopsReading(old(View()), ticket, t))
              && run.sendBan.Valid()
              && run.sendBan.banned == run.BansAfter(old(run.sendBan.banned), t.lifted, old(bag.ctx.sessionKey))
    {
      hide Consume;
      if ticket != generation { return true; }
      ghost var view := run.View(bag);
      assert view == RunOf(View(), bag.View(), bag.state.fullText);
      var fed := run.parser.frames;
      var verdict := run.ConsumeWireEvent(ev, bag);
      if parserDone && run.parser.frames != fed { isRequesting := false; }
      stop := verdict != Continue;
    }

    method OnStreamEnd(ticket: nat, bag: RunOutcomeBag) returns (s: Settlement)
      modifies this
      ensures View() == ReleasedBy(old(View()), ticket)
      ensures s == if ticket == old(generation) then SettleRun(bag.View()) else Quiet
    {
      if ticket != generation { return Quiet; }
      isRequesting := false;
      s := SettleRun(bag.View());
    }

    /** A broken stream: superseded, to be recovered, or reported. */
    method OnStreamBroken(ticket: nat, bag: RunOutcomeBag, typed: bool) returns (recover: bool)
      modifies this
      ensures recover <==> Recovers(old(View()), ticket, bag.View(), typed)
      ensures View() == StreamBroke(old(View()), ticket, bag.View(), typed)
    {
      if ticket != generation { return false; }
      if typed && bag.ctx.taskRunId.Some? && bag.outcome.None? { return true; }
      isRequesting := false;
      return false;
    }

    method OnRecoveryDone(ticket: nat, bag: RunOutcomeBag, outcome: Recovery.RecoveryOutcome, parserDone: bool) returns (s: Settlement)
      requires Wired() && run.sendBan.Valid()
      modifies this, run, run.parser, run.sendBan, bag
      ensures var t := RecoveryEnded(old(View()), ticket, old(bag.View()), old(bag.state.fullText), outcome, parserDone);
              && View() == t.core && bag.View() == t.bag && bag.state.fullText == t.text
              && s == (if ticket == old(generation) then SettleRecovery(old(bag.View()), outcome) else Quiet)
              && run.sendBan.Valid()
              && run.sendBan.banned == run.BansAfter(old(run.sendBan.banned), t.lifted, old(bag.ctx.sessionKey))
    {
      if ticket != generation { return Quiet; }
      isRequesting := false;
      s := SettleRecovery(bag.View(), outcome);
      if outcome.ResumedIncomplete? {
        assert run.View(bag) == RunOf(View(), bag.View(), bag.state.fullText);
        run.TakeRecoveredIncomplete(bag, outcome.state, outcome.latestText);
      }
    }

    /** The ban is in place before anything is sent; the caller then issues the one CancelTask. */
    method FireWireCancel(contextId: string)
      requires run.sendBan.Valid()
      modifies run.sendBan
      ensures run.sendBan.Valid()
      ensures var key := KeyOf(rpcUrl, ScopedContext(scope, contextId));
              && key in run.sendBan.banned
              && run.sendBan.banned == (if key in old(run.sendBan.banned) then old(run.sendBan.banned)
                                        else old(run.sendBan.banned)[key := BanKey(rpcUrl, ScopedContext(scope, contextId))])
    {
      run.sendBan.Begin(rpcUrl, ScopedContext(scope, contextId));
    }

    method Abort() returns (report: AbortReport)
      requires run.sendBan.Valid()
      modifies this, run.sendBan
      ensures View() == Fenced(old(View()))
      ensures report == AbortOutcome(old(View()))
      ensures run.sendBan.Valid()
      ensures report.WireCancel? ==> KeyOf(rpcUrl, ScopedContext(scope, report.sessionKey)) in run.sendBan.banned
      ensures !report.WireCancel? ==> run.sendBan.banned == old(run.sendBan.banned)
      ensures forall k :: k in old(run.sendBan.banned) ==> k in run.sendBan.banned && run.sendBan.banned[k] == old(run.sendBan.banned)[k]
    {
      var dispatched := dispatchedGeneration == Some(generation);
      generation := generation + 1;
      var inFlight := isRequesting;
      isRequesting := false;
      if !inFlight { return Idle; }
      if run.recoveryAnchor.Some? {
        var anchor := run.recoveryAnchor.value;
        FireWireCancel(anchor.sessionKey);
        return WireCancel(anchor.taskRunId, anchor.sessionKey);
      }
      return if dispatched then OutcomeUnknown else NeverSent;
    }

    method CancelUnterminatedTask() returns (cancelled: Option<Anchor<RollingTextCell>>)
      requires run.sendBan.Valid()
      modifies this, run.sendBan
      ensures run.sendBan.Valid()
      ensures cancelled == if HasUnterminatedRecovery(old(View())) then old(run.recoveryAnchor) else None
      ensures cancelled.Some? ==> View() == RoundsFenced(old(View()))
                                  && KeyOf(rpcUrl, ScopedContext(scope, cancelled.value.sessionKey)) in run.sendBan.banned
      ensures cancelled.None? ==> View() == old(View()) && run.sendBan.banned == old(run.sendBan.banned)
    {
      if run.recoveryAnchor.None? || run.runSettled || isRequesting { return None; }
      generation := generation + 1;
      FireWireCancel(run.recoveryAnchor.value.sessionKey);
      cancelled := run.recoveryAnchor;
    }

    /** No generation test here: an answer counts even after the provider was torn down. */
    method ApplyCancelBanDisposition(outcome: CancelOutcome, contextId: string)
      requires run.sendBan.Valid()
      modifies run.sendBan
      ensures run.sendBan.Valid()
      ensures var key := KeyOf(rpcUrl, ScopedContext(scope, contextId));
              match CancelDisposition(outcome.kind)
              case Lift => run.sendBan.banned == map k | k in old(run.sendBan.banned) && k != key :: old(run.sendBan.banned)[k]
              case Keep => key in run.sendBan.banned && forall k :: k in old(run.sendBan.banned) ==> k in run.sendBan.banned
              case NoChange => run.sendBan.banned == old(run.sendBan.banned)
    {
      match outcome.kind
      case CancelledClean => run.sendBan.ReleaseOnConfirmedAbort(rpcUrl, ScopedContext(scope, contextId));
      case CancelRejected => run.sendBan.ReleaseOnTerminal(rpcUrl, ScopedContext(scope, contextId));
      case CancelledUnconfirmed => run.sendBan.Begin(rpcUrl, ScopedContext(scope, contextId));
      case CancelUnknown => run.sendBan.Begin(rpcUrl, ScopedContext(scope, contextId));
      case CancelRejectedUnknown => run.sendBan.Begin(rpcUrl, ScopedContext(scope, contextId));
      case TaskOutcomeUnknown =>
    }

    method ProbeAnswered(task: Option<Fields>, contextId: string)
      requires run.sendBan.Valid()
      modifies run.sendBan
      ensures run.sendBan.Valid()
      ensures run.sendBan.banned ==
        if ProbeDisposition(task).Lift?
        then map k | k in old(run.sendBan.banned) && k != KeyOf(rpcUrl, ScopedContext(scope, contextId)) :: old(run.sendBan.banned)[k]
        else old(run.sendBan.banned)
    {
      if task.Some? && StateOf(task.value) in {COMPLETED, FAILED} {
        run.sendBan.ReleaseOnTerminal(rpcUrl, ScopedContext(scope, contextId));
      }
    }

    /** A manual round may start only on an unterminated run. */
    method ManualRecoverable() returns (anchor: Option<Anchor<RollingTextCell>>)
      ensures anchor == if HasUnterminatedRecovery(View()) then run.recoveryAnchor else None
    {
      if run.recoveryAnchor.None? || run.runSettled || isRequesting { return None; }
      anchor := run.recoveryAnchor;
    }

    /** After the wait for the parser: the round takes today's generation and goes on with the anchor's text. */
    method OpenManualRound(anchor: Anchor<RollingTextCell>) returns (ticket: nat, bag: RunOutcomeBag)
      ensures ticket == generation && fresh(bag)
      ensures bag.View() == RoundBag(anchor)
    {
      ticket := generation;
      bag := new RunOutcomeBag(Context(anchor.sessionKey, Some(anchor.taskRunId)), anchor.text);
    }

    method OnManualDone(bag: RunOutcomeBag, outcome: Recovery.RecoveryOutcome, parserDone: bool)
      returns (result: Option<Recovery.RecoveryOutcome>)
      requires Wired() && run.sendBan.Valid()
      modifies this, run, run.parser, run.sendBan, bag
      ensures var t := IncompleteTaken(old(View()), old(bag.View()), old(bag.state.fullText), outcome, parserDone);
              && View() == t.core && bag.View() == t.bag && bag.state.fullText == t.text
              && result == (if outcome.CancelledRound? then None else Some(outcome))
              && run.sendBan.Valid()
              && run.sendBan.banned == run.BansAfter(old(run.sendBan.banned), t.lifted, old(bag.ctx.sessionKey))
    {
      if outcome.CancelledRound? { return None; }
      if outcome.ResumedIncomplete? {
        assert run.View(bag) == RunOf(View(), bag.View(), bag.state.fullText);
        var fed := run.parser.frames;
        run.TakeRecoveredIncomplete(bag, outcome.state, outcome.latestText);
        if parserDone && run.parser.frames != fed { isRequesting := false; }
      }
      result := Some(outcome);
    }
  }
}
