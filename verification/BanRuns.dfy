/** Send bans over whole runs of any number of providers: lifted only on evidence. */
module BanRuns {
  import opened Json
  import opened Rpc
  import opened Translate
  import opened RunState
  import opened SendBan
  import opened Cancel
  import opened Provider
  import opened ProviderRuns
  import Recovery
  import AbortRuns
  import RequestRuns

  /** Several clients, live or torn down, around one registry. */
  datatype System = System(clients: seq<Client>, bans: set<BanKey>)

  function KeyFor(p: Client, contextId: string): BanKey {
    BanKey(p.rpcUrl, ScopedContext(p.scope, contextId))
  }

  function BansAfter(bans: set<BanKey>, p: Client, effect: BanEffect): set<BanKey> {
    match effect
    case NoBan => bans
    case Place(contextId) => bans + {KeyFor(p, contextId)}
    case Free(contextId) => bans - {KeyFor(p, contextId)}
  }

  function SystemStep(s: System, i: nat, step: Step): System {
    if i >= |s.clients| then s
    else
      var a := Next(s.clients[i], step);
      System(s.clients[i := a.client], BansAfter(s.bans, s.clients[i], a.ban))
  }

  function RunSystem(s: System, steps: seq<(nat, Step)>): System {
    if steps == [] then s
    else SystemStep(RunSystem(s, steps[..|steps| - 1]), steps[|steps| - 1].0, steps[|steps| - 1].1)
  }

  predicate ConfirmsTerminal(ev: WireEvent) { StateOf(ev.member) in {COMPLETED, FAILED} }

  predicate FetchedCompleted(outcome: Recovery.RecoveryOutcome) {
    outcome.ResumedIncomplete? && outcome.state == Some(COMPLETED)
  }

  /** A step that proves something about a task of the session behind `key`. */
  predicate Evidence(p: Client, step: Step, key: BanKey) {
    match step
    case StreamEvent(r, ev, _) => r < |p.requests| && key == KeyFor(p, p.requests[r].bag.ctx.sessionKey) && ConfirmsTerminal(ev)
    case RecoveryEvent(r, ev, _) => r < |p.requests| && key == KeyFor(p, p.requests[r].bag.ctx.sessionKey) && ConfirmsTerminal(ev)
    case ManualEvent(m, ev, _) => m < |p.manuals| && key == KeyFor(p, p.manuals[m].bag.ctx.sessionKey) && ConfirmsTerminal(ev)
    case RecoveryDone(r, outcome, _) => r < |p.requests| && key == KeyFor(p, p.requests[r].bag.ctx.sessionKey) && FetchedCompleted(outcome)
    case ManualDone(m, outcome, _) => m < |p.manuals| && key == KeyFor(p, p.manuals[m].bag.ctx.sessionKey) && FetchedCompleted(outcome)
    case CancelAnswered(c, answer) => c < |p.cancels| && key == KeyFor(p, p.cancels[c].contextId) && LiftsBan(ClassifyCancel(answer).kind)
    case ProbeDone(c, task) => c < |p.cancels| && key == KeyFor(p, p.cancels[c].contextId) && task.Some? && StateOf(task.value) in {COMPLETED, FAILED}
    case _ => false
  }

  // ------------------------------------------------------------------- events

  /** An error frame, or a final one that is no cancellation. */
  predicate LiftingEvent(ev: WireEvent) {
    && IsTerminalEvent(ev)
    && (HasErrorCode(ev) || StateOf(ev.member) !in {CANCELED, REJECTED})
  }

  /** Exactly which events release the ban of their session. */
  lemma EventLiftsExactly<T>(r: Run<T>, ev: WireEvent)
    ensures Consume(r, ev).lifted <==>
              LiftingEvent(ev) && !r.bag.terminalApplied && !IsDuplicate(r, ev)
  {
    hide RollingText;
  }

  /** An event that lifts a ban and names no terminal state but a cancellation: an error code without FAILED, or a final marker without a state. */
  predicate LiftsBlindly(ev: WireEvent) { LiftingEvent(ev) && !ConfirmsTerminal(ev) }

  /** The two kinds of such events: an error code on any other state than COMPLETED and FAILED, and a final marker that names no terminal state. */
  lemma BlindEventsExactly(ev: WireEvent)
    ensures LiftsBlindly(ev) <==>
            ev.kind.StatusUpdate? && StateOf(ev.member) !in {COMPLETED, FAILED}
            && (HasErrorCode(ev) || (IsFinalMarker(ev) && !Recovery.IsTerminalState(StateOf(ev.member))))
  {
  }

  /** Events of both kinds: a cancellation that carries an error code, and a final marker without a state. */
  lemma BothKindsOccur()
    ensures LiftsBlindly(WireEvent(Some(1), StatusUpdate, map["status" := Obj(map["state" := Str(CANCELED)])],
                                   map["final" := Str("true"), "errorCode" := Str("E")]))
    ensures LiftsBlindly(WireEvent(Some(1), StatusUpdate, map[], map["final" := Str("true")]))
  {
    var coded := WireEvent(Some(1), StatusUpdate, map["status" := Obj(map["state" := Str(CANCELED)])],
                           map["final" := Str("true"), "errorCode" := Str("E")]);
    assert StrAt(coded.metadata, "errorCode") == Some("E") && StrAt(coded.metadata, "final") == Some("true");
    assert StateOf(coded.member) == CANCELED;
  }

  // -------------------------------------------------------------- exact effects

  /** The event is the first terminal of a current run, and it lifts. */
  predicate LiftsNow(c: Core<nat>, ticket: nat, bag: Bag<nat>, text: string, ev: WireEvent) {
    ticket == c.generation && !bag.terminalApplied && LiftingEvent(ev) && !IsDuplicate(RunOf(c, bag, text), ev)
  }

  lemma EventTakenLifts(c: Core<nat>, ticket: nat, bag: Bag<nat>, text: string, ev: WireEvent, parserDone: bool)
    ensures var t := EventTaken(c, ticket, bag, text, ev, parserDone);
            (t.lifted <==> LiftsNow(c, ticket, bag, text, ev)) && t.bag.ctx.sessionKey == bag.ctx.sessionKey
  {
    hide Consume, LiftingEvent;
    EventLiftsExactly(RunOf(c, bag, text), ev);
    AbortRuns.ConsumeAnchors(RunOf(c, bag, text), ev);
  }

  /** The session whose ban a step releases. */
  function Releases(p: Client, step: Step): Option<string> {
    match step
    case StreamEvent(r, ev, _) =>
      if InPhase(p, r, Streaming) && LiftsNow(p.core, p.requests[r].ticket, p.requests[r].bag, p.requests[r].text, ev)
      then Some(p.requests[r].bag.ctx.sessionKey) else None
    case RecoveryEvent(r, ev, _) =>
      if InPhase(p, r, Recovering) && LiftsNow(p.core, p.requests[r].ticket, p.requests[r].bag, p.requests[r].text, ev)
      then Some(p.requests[r].bag.ctx.sessionKey) else None
    case ManualEvent(m, ev, _) =>
      if ManualIn(p, m, Live) && LiftsNow(p.core, p.manuals[m].ticket, p.manuals[m].bag, p.requests[p.manuals[m].bag.text].text, ev)
      then Some(p.manuals[m].bag.ctx.sessionKey) else None
    case RecoveryDone(r, outcome, _) =>
      if InPhase(p, r, Recovering) && p.requests[r].ticket == p.core.generation && !p.requests[r].bag.terminalApplied && FetchedCompleted(outcome)
      then Some(p.requests[r].bag.ctx.sessionKey) else None
    case ManualDone(m, outcome, _) =>
      if ManualIn(p, m, Live) && !p.manuals[m].bag.terminalApplied && FetchedCompleted(outcome)
      then Some(p.manuals[m].bag.ctx.sessionKey) else None
    case CancelAnswered(c, answer) =>
      if CancelIn(p, c, CancelInFlight) && LiftsBan(ClassifyCancel(answer).kind) then Some(p.cancels[c].contextId) else None
    case ProbeDone(c, task) =>
      if CancelIn(p, c, Probing) && task.Some? && StateOf(task.value) in {COMPLETED, FAILED} then Some(p.cancels[c].contextId) else None
    case _ => None
  }

  function FreedBy(effect: BanEffect): Option<string> {
    match effect case Free(contextId) => Some(contextId) case _ => None
  }

  lemma EventStepReleases(p: Client, step: Step)
    requires step.StreamEvent? || step.RecoveryEvent? || step.ManualEvent?
    ensures FreedBy(Next(p, step).ban) == Releases(p, step)
  {
    hide EventTaken, LiftsNow, CancelStep;
    if step.ManualEvent? {
      if ManualIn(p, step.m, Live) {
        EventTakenLifts(p.core, p.manuals[step.m].ticket, p.manuals[step.m].bag, p.requests[p.manuals[step.m].bag.text].text, step.ev, step.parserDone);
      }
    } else if step.r < |p.requests| {
      EventTakenLifts(p.core, p.requests[step.r].ticket, p.requests[step.r].bag, p.requests[step.r].text, step.ev, step.parserDone);
    }
  }

  lemma FetchStepReleases(p: Client, step: Step)
    requires step.RecoveryDone? || step.ManualDone?
    ensures FreedBy(Next(p, step).ban) == Releases(p, step)
  {
    hide EventTaken, CancelStep;
  }

  lemma CancelStepReleases(p: Client, step: Step)
    requires IsCancelStep(step)
    ensures FreedBy(Next(p, step).ban) == Releases(p, step)
  {
    hide RequestStep, ManualStep, ClassifyCancel, StateOf;
  }

  lemma OtherStepReleases(p: Client, step: Step)
    requires !IsCancelStep(step) && !TakesEvents(step) && !step.ManualEvent? && !step.ManualDone?
    ensures FreedBy(Next(p, step).ban) == None == Releases(p, step)
  {
    hide CancelStep, EventTaken, RecoveryEnded;
  }

  /** One step: exactly which ban it takes away. */
  lemma FreedExactly(s: System, i: nat, step: Step, key: BanKey)
    requires key in s.bans
    ensures key !in SystemStep(s, i, step).bans <==>
            i < |s.clients| && Releases(s.clients[i], step).Some? && key == KeyFor(s.clients[i], Releases(s.clients[i], step).value)
  {
    if i < |s.clients| {
      var p := s.clients[i];
      hide Next, Releases;
      if IsCancelStep(step) {
        CancelStepReleases(p, step);
      } else if step.StreamEvent? || step.RecoveryEvent? || step.ManualEvent? {
        EventStepReleases(p, step);
      } else if step.RecoveryDone? || step.ManualDone? {
        FetchStepReleases(p, step);
      } else {
        OtherStepReleases(p, step);
      }
    }
  }

  // --------------------------------------------------------------- the theorem

  predicate TakesBlindly(step: Step) {
    match step
    case StreamEvent(_, ev, _) => LiftsBlindly(ev)
    case RecoveryEvent(_, ev, _) => LiftsBlindly(ev)
    case ManualEvent(_, ev, _) => LiftsBlindly(ev)
    case _ => false
  }

  /** One step: what takes a ban away carries evidence for its session, or is an event that lifts blindly. */
  lemma FreedOnlyOnEvidence(s: System, i: nat, step: Step, key: BanKey)
    requires key in s.bans && key !in SystemStep(s, i, step).bans
    ensures i < |s.clients| && (Evidence(s.clients[i], step, key) || TakesBlindly(step))
  {
    FreedExactly(s, i, step, key);
    hide Next, ClassifyCancel, StateOf, IsTerminalEvent, KeyFor, IsDuplicate;
  }

  /**
   * Over every run of every set of providers: for a ban that is gone there is the
   * step that took it away, and that step carried evidence about its own session
   * or an event that lifts blindly.
   */
  lemma {:induction false} BansAreLiftedOnlyOnEvidence(s: System, steps: seq<(nat, Step)>, key: BanKey) returns (k: nat)
    requires key in s.bans && key !in RunSystem(s, steps).bans
    ensures k < |steps| && key in RunSystem(s, steps[..k]).bans && key !in RunSystem(s, steps[..k + 1]).bans
    ensures steps[k].0 < |RunSystem(s, steps[..k]).clients|
    ensures Evidence(RunSystem(s, steps[..k]).clients[steps[k].0], steps[k].1, key) || TakesBlindly(steps[k].1)
  {
    hide SystemStep, Evidence, TakesBlindly;
    var last := |steps| - 1;
    if key in RunSystem(s, steps[..last]).bans {
      k := last;
      assert steps[..k + 1] == steps;
      FreedOnlyOnEvidence(RunSystem(s, steps[..last]), steps[last].0, steps[last].1, key);
    } else {
      k := BansAreLiftedOnlyOnEvidence(s, steps[..last], key);
      assert steps[..last][..k] == steps[..k] && steps[..last][..k + 1] == steps[..k + 1];
    }
  }

  /** Behind every answer that proves nothing, and behind every cancel that is sent, the ban is in place, and a probe without a result leaves it. */
  lemma UnprovenAnswersKeepTheBan(s: System, i: nat, step: Step)
    requires i < |s.clients|
    ensures var p, n := s.clients[i], SystemStep(s, i, step);
            && (step.CancelAnswered? && CancelIn(p, step.c, CancelInFlight) && !LiftsBan(ClassifyCancel(step.answer).kind) ==>
                  KeyFor(p, p.cancels[step.c].contextId) in n.bans)
            && (step.CancelToken? && !step.ok && CancelIn(p, step.c, CancelQueued) ==> KeyFor(p, p.cancels[step.c].contextId) in n.bans)
            && (|n.clients[i].cancels| > |p.cancels| ==> KeyFor(p, n.clients[i].cancels[|p.cancels|].contextId) in n.bans)
            && (step.ProbeDone? && CancelIn(p, step.c, Probing) && (step.task.None? || StateOf(step.task.value) !in {COMPLETED, FAILED}) ==>
                  n.bans == s.bans)
  {
    if IsCancelStep(step) {
      CancelStepsKeepTheBan(s, i, step);
      hide *;
    } else if IsManualStep(step) {
      hide RequestStep, CancelStep, ManualEventOf, IncompleteTaken, KeyFor;
    } else {
      hide CancelStep, ManualStep, EventOf, RecoveryEnded, KeyFor;
    }
  }

  lemma CancelStepsKeepTheBan(s: System, i: nat, step: Step)
    requires i < |s.clients| && IsCancelStep(step)
    ensures var p, n := s.clients[i], SystemStep(s, i, step);
            && (step.CancelAnswered? && CancelIn(p, step.c, CancelInFlight) && !LiftsBan(ClassifyCancel(step.answer).kind) ==>
                  KeyFor(p, p.cancels[step.c].contextId) in n.bans)
            && (step.CancelToken? && !step.ok && CancelIn(p, step.c, CancelQueued) ==> KeyFor(p, p.cancels[step.c].contextId) in n.bans)
            && (|n.clients[i].cancels| > |p.cancels| ==> KeyFor(p, n.clients[i].cancels[|p.cancels|].contextId) in n.bans)
            && (step.ProbeDone? && CancelIn(p, step.c, Probing) && (step.task.None? || StateOf(step.task.value) !in {COMPLETED, FAILED}) ==>
                  n.bans == s.bans)
  {
    hide RequestStep, ManualStep, ClassifyCancel, StateOf, KeyFor;
    var p := s.clients[i];
    if step.CancelAnswered? && CancelIn(p, step.c, CancelInFlight) { NeverUnclassified(step.answer); }
  }

  /** Only an answer that the engine never gave is probed, and only once. */
  lemma OnlyUnknownCancelsAreProbed(p: Client, step: Step, c: nat)
    requires CancelIn(Next(p, step).client, c, Probing) && !CancelIn(p, c, Probing)
    ensures CancelIn(p, c, CancelQueued) || CancelIn(p, c, CancelInFlight)
    ensures (step == CancelToken(c, false)) || (step.CancelAnswered? && step.c == c && ClassifyCancel(step.answer).kind == CancelUnknown)
  {
    if IsCancelStep(step) {
      hide RequestStep, ManualStep, ClassifyCancel, ProbeDisposition;
    } else if IsManualStep(step) {
      hide RequestStep, CancelStep, ManualEventOf, IncompleteTaken;
    } else {
      hide CancelStep, ManualStep, EventOf, RecoveryEnded;
    }
  }

  lemma NeverUnclassified(a: CancelAnswer)
    ensures !ClassifyCancel(a).kind.TaskOutcomeUnknown?
  {
  }

  // -------------------------------------------------------- the contract it needs

  predicate Brings(step: Step, contract: WireEvent -> bool) {
    match step
    case StreamEvent(_, ev, _) => contract(ev)
    case RecoveryEvent(_, ev, _) => contract(ev)
    case ManualEvent(_, ev, _) => contract(ev)
    case _ => true
  }

  /** New providers around a registry that may hold bans already. */
  ghost predicate StartsAfresh(s: System) {
    forall p :: p in s.clients ==> p == Initial(p.rpcUrl, p.scope)
  }

  /** Under a contract for wire events no ban is ever taken away without evidence. */
  ghost predicate LiftsOnlyOnEvidence(contract: WireEvent -> bool) {
    forall s, steps: seq<(nat, Step)>, i: nat, step, key ::
      (StartsAfresh(s) && (forall x :: x in steps ==> Brings(x.1, contract)) && Brings(step, contract)
       && Loses(RunSystem(s, steps), i, step, key))
      ==> Evidence(RunSystem(s, steps).clients[i], step, key)
  }

  ghost predicate Loses(s: System, i: nat, step: Step, key: BanKey) {
    i < |s.clients| && key in s.bans && key !in SystemStep(s, i, step).bans
  }

  /** The wire contract that the law needs is exactly that no event lifts blindly. */
  lemma ContractIsExact(contract: WireEvent -> bool)
    ensures LiftsOnlyOnEvidence(contract) <==> forall ev :: contract(ev) ==> !LiftsBlindly(ev)
  {
    hide LiftsBlindly, Evidence, SystemStep, RunSystem;
    if forall ev :: contract(ev) ==> !LiftsBlindly(ev) {
      forall s, steps: seq<(nat, Step)>, i: nat, step, key |
        StartsAfresh(s) && (forall x :: x in steps ==> Brings(x.1, contract)) && Brings(step, contract)
        && Loses(RunSystem(s, steps), i, step, key)
        ensures Evidence(RunSystem(s, steps).clients[i], step, key)
      {
        FreedOnlyOnEvidence(RunSystem(s, steps), i, step, key);
      }
    } else {
      var ev :| contract(ev) && LiftsBlindly(ev);
      var s, steps, key := BlindEventLifts(ev);
      assert Brings(StreamEvent(0, ev, false), contract);
    }
  }

  /** A new provider's first request, with a ban of its session in the registry: the event takes the ban away without evidence. */
  lemma BlindEventLifts(ev: WireEvent) returns (s: System, steps: seq<(nat, Step)>, key: BanKey)
    requires LiftsBlindly(ev)
    ensures StartsAfresh(s) && forall x, contract :: x in steps ==> Brings(x.1, contract)
    ensures Loses(RunSystem(s, steps), 0, StreamEvent(0, ev, false), key)
    ensures !Evidence(RunSystem(s, steps).clients[0], StreamEvent(0, ev, false), key)
  {
    var first := Initial("", None);
    key := KeyFor(first, "");
    s := System([first], {key});
    var begun := RequestRuns.Begun();
    steps := Tagged(begun);
    hide RunClient, RunSystem, SystemStep, Next, LiftsBlindly, ScopedContext, Evidence, Releases, RequestRuns.Begun;
    BegunIsQuiet();
    QuietRun(first, {key}, begun);
    RequestRuns.BegunStreams("", None);
    var p := RunClient(first, begun);
    BlindEventIsReleased(p, ev);
    FreedExactly(System([p], {key}), 0, StreamEvent(0, ev, false), key);
    hide Initial, Tagged, InPhase;
  }

  lemma BlindEventIsReleased(p: Client, ev: WireEvent)
    requires LiftsBlindly(ev) && InPhase(p, 0, Streaming) && p.requests[0].ticket == p.core.generation
    requires p.core.run == Cursor(None, None, false) && p.requests[0].bag == RequestRuns.Begin(0, "").bag
    ensures Releases(p, StreamEvent(0, ev, false)) == Some("")
    ensures forall key :: !Evidence(p, StreamEvent(0, ev, false), key)
  {
    hide IsTerminalEvent;
  }

  function Tagged(steps: seq<Step>): seq<(nat, Step)> { seq(|steps|, i requires 0 <= i < |steps| => (0, steps[i])) }

  predicate IsQuiet(step: Step) { step.HostConnected? || step.CallRequest? || step.ParserReady? || step.TokenDone? }

  lemma BegunIsQuiet()
    ensures forall x :: x in RequestRuns.Begun() ==> IsQuiet(x)
    ensures forall x, contract :: x in Tagged(RequestRuns.Begun()) ==> Brings(x.1, contract)
  {
    assert forall x :: x in Tagged(RequestRuns.Begun()) ==> x.1 in RequestRuns.Begun();
  }

  /** Nothing in these steps touches a ban or the place of the provider. */
  lemma QuietStep(p: Client, bans: set<BanKey>, step: Step)
    requires IsQuiet(step)
    ensures SystemStep(System([p], bans), 0, step) == System([Next(p, step).client], bans)
    ensures Next(p, step).client.rpcUrl == p.rpcUrl && Next(p, step).client.scope == p.scope
  {
    hide CancelStep, ManualStep;
  }

  lemma {:induction false} QuietRun(p: Client, bans: set<BanKey>, steps: seq<Step>)
    requires forall x :: x in steps ==> IsQuiet(x)
    ensures RunSystem(System([p], bans), Tagged(steps)) == System([RunClient(p, steps)], bans)
    ensures RunClient(p, steps).rpcUrl == p.rpcUrl && RunClient(p, steps).scope == p.scope
  {
    hide SystemStep, Next, IsQuiet;
    if steps != [] {
      var last := |steps| - 1;
      assert steps[last] in steps;
      forall x | x in steps[..last] ensures IsQuiet(x) { assert x in steps; }
      QuietRun(p, bans, steps[..last]);
      assert Tagged(steps)[..last] == Tagged(steps[..last]) && Tagged(steps)[last] == (0, steps[last]);
      QuietStep(RunClient(p, steps[..last]), bans, steps[last]);
    }
  }
}
