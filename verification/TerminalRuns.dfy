/** One terminal per task: requests, automatic recovery and manual rounds together. */
module TerminalRuns {
  import opened Json
  import opened Translate
  import opened RunState
  import opened Cancel
  import opened Provider
  import opened ProviderRuns
  import opened AbortRuns
  import Recovery

  function One(b: bool): nat { if b then 1 else 0 }

  /** How many final or error frames the parser got for the task of request `r`. */
  function Finals(log: seq<Effect>, r: nat): nat {
    if log == [] then 0 else Finals(log[..|log| - 1], r) + One(log[|log| - 1] == TerminalFed(r))
  }

  /** A round that can still feed a terminal: it has fed none and goes by the current generation, or will. */
  predicate MayFeed(p: Client, m: nat) {
    && m < |p.manuals| && !p.manuals[m].bag.terminalApplied
    && (p.manuals[m].phase == AwaitingParser || (p.manuals[m].phase == Live && p.manuals[m].ticket == p.core.generation))
  }

  /** A manual round called now would not be the only one that can feed a terminal for its run. */
  ghost predicate Overlaps(p: Client) {
    HasUnterminatedRecovery(p.core) && exists m: nat :: MayFeed(p, m) && p.manuals[m].bag.text == p.core.run.anchor.value.text
  }

  /** Outcome and terminal mark agree, and a failure is on record exactly for a failed run. */
  predicate Consistent(bag: Bag<nat>) {
    && (bag.outcome.Some? <==> bag.terminalApplied)
    && (bag.outcome == Some(Outcome.Failed) <==> bag.runFailure.Some?)
  }

  /**
   * How a recovered request ends for its caller: quietly or as its run says only
   * after the run went on or ended, and with its own signal after each outcome
   * that leaves the result open.
   */
  lemma CallerLearnsOfTheRecovery(bag: Bag<nat>, outcome: Recovery.RecoveryOutcome)
    ensures var s := SettleRecovery(bag, outcome);
            && (!s.Signal? <==> outcome.Resumed? || outcome.TerminalSeen? || outcome.CancelledRound?)
            && (!s.Signal? ==> s == SettleRun(bag))
            && (s == Signal("recovery_incomplete", None) <==> outcome.ResumedIncomplete?)
            && (s == Signal("recovery_outcome_unknown", None) <==> outcome.UnknownResult?)
            && (s == Signal("recovery_stopped", None) <==> outcome.BudgetExhausted?)
            && (forall failure :: s == Signal("recovery_stopped", Some(failure)) <==> outcome == Recovery.Fatal(failure))
  {
  }

  /** How a request ends for its caller says what became of its run: no failure is swallowed, none is made up. */
  lemma CallerLearnsTheOutcome(bag: Bag<nat>)
    requires Consistent(bag)
    ensures SettleRun(bag).RunFailed? <==> bag.outcome == Some(Outcome.Failed)
    ensures SettleRun(bag).CancelledComplete? <==> bag.outcome == Some(Outcome.Cancelled)
    ensures SettleRun(bag).Quiet? <==> bag.outcome == Some(Outcome.Completed) || !bag.terminalApplied
  {
    if bag.outcome.Some? {
      match bag.outcome.value { case Completed => case Cancelled => case Failed => }
    }
  }

  /**
   * What the host and the parser are expected to do: the parser completes only on
   * terminal frames, manual rounds on one run do not overlap, and a fetched result is applied
   * in the same breath as the last supersession check of its round.
   */
  ghost predicate Orderly(p: Client, step: Step) {
    match step
    case StreamEvent(r, ev, done) => done && r < |p.requests| ==> EventOf(p, r, ev, done).verdict != Continue
    case RecoveryEvent(r, ev, done) => done && r < |p.requests| ==> EventOf(p, r, ev, done).verdict != Continue
    case ManualEvent(m, ev, done) => done && ManualIn(p, m, Live) ==> ManualEventOf(p, m, ev, done).verdict != Continue
    case ManualDone(m, outcome, _) => m < |p.manuals| && outcome.ResumedIncomplete? ==> p.manuals[m].ticket == p.core.generation
    case ManualCall => !Overlaps(p)
    case _ => true
  }

  ghost predicate AtMostOne(p: Client) { forall r: nat :: Finals(p.log, r) <= 1 }

  /** At most one terminal for each task; the marks of a bag and of the engine agree with it. */
  ghost predicate OneTerminal(p: Client) {
    && AtMostOne(p)
    && (forall r: nat :: r >= |p.requests| ==> Finals(p.log, r) == 0)
    && (forall r :: 0 <= r < |p.requests| ==> RequestMarks(p, r))
    && (forall m :: 0 <= m < |p.manuals| ==> ManualMarks(p, m))
    && (forall m, k :: 0 <= m < k < |p.manuals| ==> !(MayFeed(p, m) && MayFeed(p, k) && p.manuals[m].bag.text == p.manuals[k].bag.text))
    && AnchorMarks(p)
    && RoundTickets(p)
  }

  ghost predicate RoundTickets(p: Client) {
    forall m :: 0 <= m < |p.manuals| && p.manuals[m].phase == Live ==> p.manuals[m].ticket <= p.core.generation
  }

  predicate RequestMarks(p: Client, r: nat)
    requires r < |p.requests|
  {
    && Consistent(p.requests[r].bag)
    && (BeforeTicket(p.requests[r].phase) ==> Finals(p.log, r) == 0 && !p.requests[r].bag.terminalApplied)
    && (Holds(p, r) ==>
          && Finals(p.log, r) == One(p.requests[r].bag.terminalApplied)
          && (p.requests[r].bag.terminalApplied ==> p.core.run.runSettled)
          && (p.core.isRequesting || p.core.run.runSettled))
  }

  predicate ManualMarks(p: Client, m: nat)
    requires m < |p.manuals|
  {
    var r := p.manuals[m].bag.text;
    && Consistent(p.manuals[m].bag)
    && r < |p.requests| && !BeforeTicket(p.requests[r].phase)
    && (MayFeed(p, m) ==> Finals(p.log, r) == 0 && !Holds(p, r))
  }

  predicate AnchorMarks(p: Client) {
    p.core.run.anchor.Some? ==>
      var r := p.core.run.anchor.value.text;
      && r < |p.requests| && !BeforeTicket(p.requests[r].phase)
      && (Finals(p.log, r) > 0 ==> p.core.run.runSettled)
  }

  // ------------------------------------------------------------------- events

  /** A verdict other than `Continue` is the first terminal of its bag and settles the run; the outcome is set once. */
  predicate MarksTerminal<T>(r: Run<T>, x: Consumed<T>) {
    && (x.verdict != Continue <==> !r.bag.terminalApplied && x.run.bag.terminalApplied)
    && (r.bag.terminalApplied ==> x.run.bag.terminalApplied && x.run.bag.outcome == r.bag.outcome)
    && (x.verdict == Continue ==> x.run.bag.outcome == r.bag.outcome && x.run.cursor.runSettled == r.cursor.runSettled)
    && (x.verdict != Continue ==> x.run.bag.outcome.Some? && x.run.cursor.runSettled)
    && (x.verdict != IsError ==> x.run.bag.runFailure == r.bag.runFailure)
    && (x.verdict == IsError ==> x.run.bag.runFailure.Some?)
    && (x.verdict == IsError <==> x.verdict != Continue && x.run.bag.outcome == Some(Outcome.Failed))
  }

  lemma ConsumeMarksTerminal<T>(r: Run<T>, ev: WireEvent)
    ensures MarksTerminal(r, Consume(r, ev))
  {
    hide TranslateEvent, RollingText, TaskIdOf, IsFinalMarker, StateOf, BuildRunFailure;
  }

  lemma FetchMarksTerminal<T>(r: Run<T>, state: Option<string>, text: Option<string>)
    ensures MarksTerminal(r, ApplyRecoveredIncomplete(r, state, text))
  {
  }

  /** The same for what a step took, stale steps included. */
  predicate TookTerminal(c: Core<nat>, ticket: nat, bag: Bag<nat>, t: Taken<nat>) {
    && (t.verdict != Continue ==> ticket == c.generation && !bag.terminalApplied && t.bag.terminalApplied && t.core.run.runSettled)
    && (t.verdict == Continue ==> t.bag.terminalApplied == bag.terminalApplied && t.core.run.runSettled == c.run.runSettled)
    && (Consistent(bag) ==> Consistent(t.bag))
    && (t.core.isRequesting ==> c.isRequesting)
    && (ticket != c.generation ==> t.core == c)
  }

  lemma EventTookTerminal(c: Core<nat>, ticket: nat, bag: Bag<nat>, text: string, ev: WireEvent, done: bool)
    ensures var t := EventTaken(c, ticket, bag, text, ev, done);
            TookTerminal(c, ticket, bag, t) && (t.core.isRequesting == c.isRequesting || done)
  {
    hide Consume;
    ConsumeMarksTerminal(RunOf(c, bag, text), ev);
  }

  lemma RecoveryEndTookTerminal(c: Core<nat>, ticket: nat, bag: Bag<nat>, text: string, outcome: Recovery.RecoveryOutcome, done: bool)
    ensures TookTerminal(c, ticket, bag, RecoveryEnded(c, ticket, bag, text, outcome, done))
  {
    hide ApplyRecoveredIncomplete;
    if outcome.ResumedIncomplete? { FetchMarksTerminal(RunOf(Released(c), bag, text), outcome.state, outcome.latestText); }
  }

  lemma FetchTookTerminal(c: Core<nat>, bag: Bag<nat>, text: string, outcome: Recovery.RecoveryOutcome, done: bool)
    ensures var t := IncompleteTaken(c, bag, text, outcome, done);
            && TookTerminal(c, c.generation, bag, t)
            && (!outcome.ResumedIncomplete? ==> t.core == c)
            && (t.core.isRequesting == c.isRequesting || t.verdict != Continue)
            && (t.verdict == Continue ==> t.core == c)
            && t.core.run.anchor == c.run.anchor && t.core.generation == c.generation && t.bag.text == bag.text
  {
  }

  lemma FinalsAfter(log: seq<Effect>, verdict: Verdict, r: nat, s: nat)
    ensures Finals(log + Feed(verdict, r), s) == Finals(log, s) + One(verdict != Continue && s == r)
  {
    if verdict == Continue { assert log + [] == log; } else { assert (log + [TerminalFed(r)])[..|log|] == log; }
  }

  // -------------------------------------------------------------------- steps

  lemma RequestTookOneTerminal(p: Client, r: nat, t: Taken<nat>, phase: Phase)
    requires FenceInv(p) && AnchorFollowsTask(p) && OneTerminal(p)
    requires r < |p.requests| && HasTicket(p.requests[r].phase) && !BeforeTicket(phase)
    requires KeepsAnchor(p.core, p.requests[r].ticket, p.requests[r].bag, t)
    requires TookTerminal(p.core, p.requests[r].ticket, p.requests[r].bag, t)
    requires t.core.isRequesting || !p.core.isRequesting || t.core.run.runSettled || phase == Finished
    ensures OneTerminal(RequestTook(p, r, t, phase).client)
  {
    var n := RequestTook(p, r, t, phase).client;
    forall s: nat ensures Finals(n.log, s) == Finals(p.log, s) + One(t.verdict != Continue && s == r) {
      FinalsAfter(p.log, t.verdict, r, s);
    }
    assert t.verdict != Continue ==> Holds(p, r);
    assert RequestMarks(p, r);
    forall s | 0 <= s < |n.requests| ensures RequestMarks(n, s) {
      assert RequestMarks(p, s);
      assert Holds(n, s) ==> Holds(p, s);
    }
    forall m | 0 <= m < |n.manuals| ensures ManualMarks(n, m) {
      assert ManualMarks(p, m);
    }
    SameManuals(p, n);
  }

  lemma SameManuals(p: Client, n: Client)
    requires |n.manuals| == |p.manuals|
    requires forall m :: 0 <= m < |p.manuals| ==> n.manuals[m].bag.text == p.manuals[m].bag.text && (MayFeed(n, m) ==> MayFeed(p, m))
    requires forall m, k :: 0 <= m < k < |p.manuals| ==> !(MayFeed(p, m) && MayFeed(p, k) && p.manuals[m].bag.text == p.manuals[k].bag.text)
    ensures forall m, k :: 0 <= m < k < |n.manuals| ==> !(MayFeed(n, m) && MayFeed(n, k) && n.manuals[m].bag.text == n.manuals[k].bag.text)
  {
  }

  predicate ManualTookWell(p: Client, m: nat, t: Taken<nat>) {
    && ManualIn(p, m, Live)
    && TookTerminal(p.core, p.manuals[m].ticket, p.manuals[m].bag, t)
    && t.core.run.anchor == p.core.run.anchor && t.core.generation == p.core.generation
    && t.bag.text == p.manuals[m].bag.text
    && (t.core.isRequesting || !p.core.isRequesting || t.core.run.runSettled)
    && (p.core.run.runSettled ==> t.core.run.runSettled)
  }

  lemma ManualTookFinals(p: Client, m: nat, t: Taken<nat>, phase: ManualPhase, s: nat)
    requires ManualTookWell(p, m, t)
    ensures Finals(ManualTook(p, m, t, phase).client.log, s)
         == Finals(p.log, s) + One(t.verdict != Continue && s == p.manuals[m].bag.text)
  {
    FinalsAfter(p.log, t.verdict, p.manuals[m].bag.text, s);
  }

  lemma ManualTookManuals(p: Client, m: nat, t: Taken<nat>, phase: ManualPhase, k: nat)
    requires OneTerminal(p) && ManualTookWell(p, m, t) && k < |p.manuals| && phase != AwaitingParser
    ensures MayFeed(ManualTook(p, m, t, phase).client, k) ==> MayFeed(p, k)
    ensures ManualMarks(ManualTook(p, m, t, phase).client, k)
  {
    var n := ManualTook(p, m, t, phase).client;
    var r := p.manuals[k].bag.text;
    assert ManualMarks(p, k) && ManualMarks(p, m);
    assert t.verdict != Continue ==> MayFeed(p, m);
    ManualTookFinals(p, m, t, phase, r);
    assert Holds(n, r) ==> Holds(p, r);
    if k == m {
      MarksOf(p.core, p.manuals[m].ticket, p.manuals[m].bag, t);
    } else if MayFeed(p, k) && MayFeed(p, m) {
      assert r != p.manuals[m].bag.text;
    }
  }

  lemma MarksOf(c: Core<nat>, ticket: nat, bag: Bag<nat>, t: Taken<nat>)
    requires TookTerminal(c, ticket, bag, t) && Consistent(bag)
    ensures Consistent(t.bag)
    ensures One(t.bag.terminalApplied) == One(bag.terminalApplied) + One(t.verdict != Continue)
  {
  }

  lemma ManualTookRequests(p: Client, m: nat, t: Taken<nat>, phase: ManualPhase, s: nat)
    requires OneTerminal(p) && ManualTookWell(p, m, t) && s < |p.requests|
    ensures RequestMarks(ManualTook(p, m, t, phase).client, s)
  {
    var n := ManualTook(p, m, t, phase).client;
    assert ManualMarks(p, m) && RequestMarks(p, s);
    assert t.verdict != Continue ==> MayFeed(p, m);
    ManualTookFinals(p, m, t, phase, s);
    assert Holds(n, s) ==> Holds(p, s);
  }

  lemma ManualTookOneTerminal(p: Client, m: nat, t: Taken<nat>, phase: ManualPhase)
    requires OneTerminal(p) && ManualTookWell(p, m, t) && phase != AwaitingParser
    ensures OneTerminal(ManualTook(p, m, t, phase).client)
  {
    hide RequestMarks, ManualMarks;
    var n := ManualTook(p, m, t, phase).client;
    forall s: nat ensures Finals(n.log, s) == Finals(p.log, s) + One(t.verdict != Continue && s == p.manuals[m].bag.text) {
      ManualTookFinals(p, m, t, phase, s);
    }
    forall s | 0 <= s < |n.requests| ensures RequestMarks(n, s) { ManualTookRequests(p, m, t, phase, s); }
    forall k | 0 <= k < |n.manuals| ensures ManualMarks(n, k) && (MayFeed(n, k) ==> MayFeed(p, k)) { ManualTookManuals(p, m, t, phase, k); }
    SameManuals(p, n);
    NoFinalYet(p, m, t);
  }

  lemma NoFinalYet(p: Client, m: nat, t: Taken<nat>)
    requires OneTerminal(p) && ManualTookWell(p, m, t)
    ensures t.verdict != Continue ==> Finals(p.log, p.manuals[m].bag.text) == 0 && t.core.run.runSettled
  {
    assert ManualMarks(p, m);
    assert t.verdict != Continue ==> MayFeed(p, m);
  }

  ghost predicate NothingFed(p: Client, n: Client) {
    p.log <= n.log && forall i :: |p.log| <= i < |n.log| ==> !n.log[i].TerminalFed?
  }

  lemma {:induction false} SameFinals(log: seq<Effect>, more: seq<Effect>, r: nat)
    requires forall e :: e in more ==> !e.TerminalFed?
    ensures Finals(log + more, r) == Finals(log, r)
  {
    if more == [] {
      assert log + more == log;
    } else {
      SameFinals(log, more[..|more| - 1], r);
      assert (log + more)[..|log + more| - 1] == log + more[..|more| - 1];
    }
  }

  /** Steps without events: bags, anchor and settled mark stay, and nobody gains the slot. */
  ghost predicate Calm(p: Client, n: Client) {
    && NothingFed(p, n)
    && n.core.run == p.core.run
    && |n.requests| == |p.requests| && |n.manuals| == |p.manuals|
    && (forall r :: 0 <= r < |p.requests| ==>
          && n.requests[r].bag == p.requests[r].bag
          && (BeforeTicket(n.requests[r].phase) ==> BeforeTicket(p.requests[r].phase))
          && (Holds(n, r) ==> Holds(p, r) && (p.core.isRequesting ==> n.core.isRequesting)))
    && (forall m :: 0 <= m < |p.manuals| ==>
          && n.manuals[m].bag == p.manuals[m].bag && (MayFeed(n, m) ==> MayFeed(p, m))
          && (n.manuals[m].phase == Live ==> n.manuals[m].ticket <= n.core.generation))
  }

  lemma CalmStaysOneTerminal(p: Client, n: Client)
    requires OneTerminal(p) && Calm(p, n)
    ensures OneTerminal(n)
  {
    forall r: nat ensures Finals(n.log, r) == Finals(p.log, r) {
      assert n.log == p.log + n.log[|p.log|..];
      SameFinals(p.log, n.log[|p.log|..], r);
    }
    forall r | 0 <= r < |n.requests| ensures RequestMarks(n, r) { assert RequestMarks(p, r); }
    SameManuals(p, n);
    forall m | 0 <= m < |n.manuals| ensures ManualMarks(n, m) {
      assert ManualMarks(p, m);
    }
  }

  predicate Grants(p: Client, step: Step) { Next(p, step).client.core.generation > p.core.generation && Next(p, step).client.core.isRequesting }

  predicate IsCalmStep(p: Client, step: Step) {
    && !TakesEvents(step) && !step.CallRequest? && !step.ManualCall? && !step.ManualEvent? && !step.ManualDone?
    && !Grants(p, step)
  }

  lemma CalmSteps(p: Client, step: Step)
    requires FenceInv(p) && RoundTickets(p) && IsCalmStep(p, step)
    ensures Calm(p, Next(p, step).client)
  {
    if IsCancelStep(step) {
      CalmCancelSteps(p, step);
    } else if IsManualStep(step) {
      CalmManualSteps(p, step);
    } else {
      CalmRequestSteps(p, step);
    }
    hide *;
  }

  lemma CalmCancelSteps(p: Client, step: Step)
    requires FenceInv(p) && RoundTickets(p) && IsCalmStep(p, step) && IsCancelStep(step)
    ensures Calm(p, Next(p, step).client)
  {
    hide Consume, ApplyRecoveredIncomplete, ClassifyCancel, ProbeDisposition, RequestStep, ManualStep;
  }

  lemma CalmManualSteps(p: Client, step: Step)
    requires FenceInv(p) && RoundTickets(p) && IsCalmStep(p, step) && IsManualStep(step)
    ensures Calm(p, Next(p, step).client)
  {
    hide Consume, ApplyRecoveredIncomplete, ClassifyCancel, ProbeDisposition, RequestStep, CancelStep;
  }

  predicate IsStreamEnd(step: Step) { step.TokenDone? || step.StreamBroken? || step.StreamEnded? }

  lemma CalmRequestSteps(p: Client, step: Step)
    requires FenceInv(p) && RoundTickets(p) && IsCalmStep(p, step) && !IsCancelStep(step) && !IsManualStep(step)
    ensures Calm(p, Next(p, step).client)
  {
    if IsStreamEnd(step) { CalmStreamEnds(p, step); } else { CalmConnects(p, step); }
    hide *;
  }

  lemma CalmStreamEnds(p: Client, step: Step)
    requires FenceInv(p) && RoundTickets(p) && IsCalmStep(p, step) && IsStreamEnd(step)
    ensures Calm(p, Next(p, step).client)
  {
    if step.TokenDone? {
      CalmTokenEnds(p, step);
      hide *;
    } else if step.StreamBroken? {
      CalmBreaks(p, step);
      hide *;
    } else {
      hide EventTaken, RecoveryEnded, ManualStep, CancelStep, TokenWaited, StreamBroke;
    }
  }

  lemma CalmBreaks(p: Client, step: Step)
    requires FenceInv(p) && RoundTickets(p) && IsCalmStep(p, step) && step.StreamBroken?
    ensures Calm(p, Next(p, step).client)
  {
    hide EventTaken, RecoveryEnded, ManualStep, CancelStep, TokenWaited;
  }

  lemma CalmTokenEnds(p: Client, step: Step)
    requires FenceInv(p) && RoundTickets(p) && IsCalmStep(p, step) && step.TokenDone?
    ensures Calm(p, Next(p, step).client)
  {
    hide EventTaken, RecoveryEnded, ManualStep, CancelStep, StreamBroke;
  }

  lemma CalmConnects(p: Client, step: Step)
    requires FenceInv(p) && RoundTickets(p) && IsCalmStep(p, step) && !IsCancelStep(step) && !IsManualStep(step) && !IsStreamEnd(step)
    ensures Calm(p, Next(p, step).client)
  {
    hide Consume, ApplyRecoveredIncomplete, ManualStep, CancelStep;
  }

  lemma TakeStaysOneTerminal(p: Client, r: nat)
    requires FenceInv(p) && OneTerminal(p) && r < |p.requests| && BeforeTicket(p.requests[r].phase)
    ensures OneTerminal(Take(p, r))
  {
    var n := Take(p, r);
    forall s | 0 <= s < |n.requests| ensures RequestMarks(n, s) {
      assert RequestMarks(p, s);
      assert s != r ==> n.requests[s] == p.requests[s] && !Holds(n, s);
    }
    forall m | 0 <= m < |n.manuals| ensures ManualMarks(n, m) {
      assert ManualMarks(p, m);
      assert n.manuals[m].bag.text != r;
      assert n.requests[n.manuals[m].bag.text] == p.requests[n.manuals[m].bag.text];
    }
    SameManuals(p, n);
  }

  lemma CallStaysOneTerminal(p: Client, step: Step)
    requires FenceInv(p) && OneTerminal(p) && step.CallRequest?
    ensures OneTerminal(Next(p, step).client)
  {
    var n := Next(p, step).client;
    forall s | 0 <= s < |n.requests| ensures RequestMarks(n, s) {
      if s < |p.requests| {
        assert RequestMarks(p, s);
        assert Holds(n, s) ==> Holds(p, s);
      }
    }
    forall m | 0 <= m < |n.manuals| ensures ManualMarks(n, m) {
      assert ManualMarks(p, m);
      assert Holds(n, n.manuals[m].bag.text) ==> Holds(p, n.manuals[m].bag.text);
    }
    SameManuals(p, n);
  }

  lemma ManualCallStaysOneTerminal(p: Client)
    requires OneTerminal(p) && AnchorFollowsTask(p) && Orderly(p, ManualCall)
    ensures OneTerminal(Next(p, ManualCall).client)
  {
    var n := Next(p, ManualCall).client;
    if n == p { return; }
    var r := p.core.run.anchor.value.text;
    assert AnchorMarks(p) && RequestMarks(p, r);
    forall s | 0 <= s < |n.requests| ensures RequestMarks(n, s) {
      assert RequestMarks(p, s) && Holds(n, s) == Holds(p, s);
    }
    forall m | 0 <= m < |n.manuals| ensures ManualMarks(n, m) {
      if m < |p.manuals| { assert ManualMarks(p, m) && (MayFeed(n, m) == MayFeed(p, m)); }
      assert Holds(n, n.manuals[m].bag.text) ==> Holds(p, n.manuals[m].bag.text);
    }
    forall m, k | 0 <= m < k < |n.manuals| ensures !(MayFeed(n, m) && MayFeed(n, k) && n.manuals[m].bag.text == n.manuals[k].bag.text) {
      assert MayFeed(n, m) == MayFeed(p, m) && n.manuals[m] == p.manuals[m];
      if k == |p.manuals| { assert !Overlaps(p); } else { assert MayFeed(n, k) == MayFeed(p, k); }
    }
  }

  lemma EventStepStaysOneTerminal(p: Client, step: Step)
    requires FenceInv(p) && AnchorFollowsTask(p) && OneTerminal(p) && TakesEvents(step) && Orderly(p, step)
    ensures OneTerminal(Next(p, step).client)
  {
    hide FenceInv, AnchorFollowsTask, OneTerminal, EventTaken, RecoveryEnded, KeepsAnchor, RequestTook, TookTerminal;
    if step.r >= |p.requests| { return; }
    var req := p.requests[step.r];
    if step.RecoveryDone? {
      var t := RecoveryEnded(p.core, req.ticket, req.bag, req.text, step.outcome, step.parserDone);
      RecoveryEndKeepsAnchor(p.core, req.ticket, req.bag, req.text, step.outcome, step.parserDone);
      RecoveryEndTookTerminal(p.core, req.ticket, req.bag, req.text, step.outcome, step.parserDone);
      if req.phase == Recovering { RequestTookOneTerminal(p, step.r, t, Finished); }
    } else if HasTicket(req.phase) {
      var t := EventOf(p, step.r, step.ev, step.parserDone);
      EventKeepsAnchor(p.core, req.ticket, req.bag, req.text, step.ev, step.parserDone);
      EventTookTerminal(p.core, req.ticket, req.bag, req.text, step.ev, step.parserDone);
      VerdictSettles(p.core, req.ticket, req.bag, t);
      RequestTookOneTerminal(p, step.r, t, Closing);
      RequestTookOneTerminal(p, step.r, t, Streaming);
      RequestTookOneTerminal(p, step.r, t, Recovering);
    }
  }

  lemma VerdictSettles(c: Core<nat>, ticket: nat, bag: Bag<nat>, t: Taken<nat>)
    requires TookTerminal(c, ticket, bag, t)
    ensures t.verdict != Continue ==> t.core.run.runSettled
    ensures c.run.runSettled ==> t.core.run.runSettled
    ensures ticket != c.generation ==> t.core == c
  {
  }

  lemma ManualStepStaysOneTerminal(p: Client, step: Step)
    requires FenceInv(p) && AnchorFollowsTask(p) && OneTerminal(p) && (step.ManualEvent? || step.ManualDone?) && Orderly(p, step)
    ensures OneTerminal(Next(p, step).client)
  {
    hide Consume, FenceInv, OneTerminal, ManualTook;
    if !ManualIn(p, step.m, Live) { return; }
    var m := p.manuals[step.m];
    var text := p.requests[m.bag.text].text;
    if step.ManualEvent? {
      var t := ManualEventOf(p, step.m, step.ev, step.parserDone);
      EventTookTerminal(p.core, m.ticket, m.bag, text, step.ev, step.parserDone);
      ConsumeAnchors(RunOf(p.core, m.bag, text), step.ev);
      VerdictSettles(p.core, m.ticket, m.bag, t);
      ManualTookOneTerminal(p, step.m, t, Live);
    } else {
      var t := IncompleteTaken(p.core, m.bag, text, step.outcome, step.parserDone);
      FetchTookTerminal(p.core, m.bag, text, step.outcome, step.parserDone);
      ManualTookOneTerminal(p, step.m, t, Over);
    }
  }

  // --------------------------------------------------------------- the theorem

  ghost predicate OrderlyRun(p: Client, steps: seq<Step>) {
    forall k :: 0 <= k < |steps| ==> Orderly(RunClient(p, steps[..k]), steps[k])
  }

  lemma TicketsOf(p: Client)
    requires OneTerminal(p)
    ensures RoundTickets(p)
  {
  }

  lemma OneTerminalStep(p: Client, step: Step)
    requires FenceInv(p) && AnchorFollowsTask(p) && OneTerminal(p) && Orderly(p, step)
    ensures OneTerminal(Next(p, step).client)
  {
    hide OneTerminal, FenceInv, AnchorFollowsTask, EventTaken, RecoveryEnded;
    if IsCalmStep(p, step) {
      TicketsOf(p);
      CalmSteps(p, step);
      CalmStaysOneTerminal(p, Next(p, step).client);
    } else if TakesEvents(step) {
      EventStepStaysOneTerminal(p, step);
    } else if step.CallRequest? {
      CallStaysOneTerminal(p, step);
    } else if step.ManualCall? {
      ManualCallStaysOneTerminal(p);
    } else if step.ManualEvent? || step.ManualDone? {
      ManualStepStaysOneTerminal(p, step);
    } else {
      TakeStaysOneTerminal(p, step.r);
    }
  }

  ghost predicate Good(p: Client) { FenceInv(p) && AnchorFollowsTask(p) && OneTerminal(p) }

  /** From any good state on, through any orderly continuation. */
  lemma {:induction false} StaysGood(p: Client, steps: seq<Step>)
    requires Good(p) && OrderlyRun(p, steps)
    ensures Good(RunClient(p, steps))
  {
    if steps != [] {
      var k := |steps| - 1;
      forall j | 0 <= j < k ensures Orderly(RunClient(p, steps[..k][..j]), steps[..k][j]) {
        assert steps[..k][..j] == steps[..j];
      }
      StaysGood(p, steps[..k]);
      var before := RunClient(p, steps[..k]);
      SlotStep(before, steps[k]);
      AnchorStep(before, steps[k]);
      OneTerminalStep(before, steps[k]);
    }
  }

  /**
   * In every orderly run the parser gets at most one final or error frame for the
   * task of each request; a bag has an outcome exactly when it applied a terminal.
   */
  lemma {:induction false} OneTerminalPerTask(rpcUrl: string, scope: Option<string>, steps: seq<Step>)
    requires OrderlyRun(Initial(rpcUrl, scope), steps)
    ensures Good(RunClient(Initial(rpcUrl, scope), steps))
  {
    StaysGood(Initial(rpcUrl, scope), steps);
  }

  // ------------------------------------------------------ exactly when a round may be called

  /** One live, fresh manual round that sees a final marker feeds one terminal. */
  lemma FreshRoundFeedsTerminal(p: Client, m: nat, ev: WireEvent)
    requires ManualIn(p, m, Live) && p.manuals[m].ticket == p.core.generation && !p.manuals[m].bag.terminalApplied
    requires IsFinalMarker(ev)
    ensures var n := Next(p, ManualEvent(m, ev, false)).client;
            && n.log == p.log + [TerminalFed(p.manuals[m].bag.text)]
            && n.core.generation == p.core.generation && |n.requests| == |p.requests|
            && n.manuals == p.manuals[m := n.manuals[m]]
  {
    hide TranslateEvent;
    var r := RunOf(p.core, p.manuals[m].bag, p.requests[p.manuals[m].bag.text].text);
    TerminalEventsTranslateToTerminalFrames(ev, Named(r, ev).bag.ctx, RollingText(ev, r.fullText));
    ConsumeMarksTerminal(r, ev);
  }

  lemma OneMoreStep(p: Client, steps: seq<Step>, step: Step)
    ensures RunClient(p, steps + [step]) == Next(RunClient(p, steps), step).client
  {
    assert (steps + [step])[..|steps|] == steps;
  }

  /** Opening a round that can still feed a terminal, or finding it open already. */
  lemma OpenedLives(p: Client, m: nat) returns (n: Client)
    requires MayFeed(p, m) && p.manuals[m].bag.text < |p.requests|
    ensures n == Next(p, ManualOpened(m)).client && n.core == p.core && n.log == p.log && n.requests == p.requests
    ensures n.manuals == p.manuals[m := n.manuals[m]] && n.manuals[m].bag == p.manuals[m].bag
    ensures ManualIn(n, m, Live) && n.manuals[m].ticket == n.core.generation
  {
    n := Next(p, ManualOpened(m)).client;
    assert p.manuals[m := p.manuals[m]] == p.manuals;
  }

  /** Two rounds on one run, the one called last. */
  function BothEnd(m: nat, k: nat, ev: WireEvent): seq<Step> {
    [] + [ManualOpened(m)] + [ManualOpened(k)] + [ManualEvent(m, ev, false)] + [ManualEvent(k, ev, false)]
  }

  lemma FourSteps(p: Client, m: nat, k: nat, ev: WireEvent)
    ensures RunClient(p, BothEnd(m, k, ev)) ==
            Next(Next(Next(Next(p, ManualOpened(m)).client, ManualOpened(k)).client, ManualEvent(m, ev, false)).client, ManualEvent(k, ev, false)).client
  {
    OneMoreStep(p, [], ManualOpened(m));
    OneMoreStep(p, [] + [ManualOpened(m)], ManualOpened(k));
    OneMoreStep(p, [] + [ManualOpened(m)] + [ManualOpened(k)], ManualEvent(m, ev, false));
    OneMoreStep(p, [] + [ManualOpened(m)] + [ManualOpened(k)] + [ManualEvent(m, ev, false)], ManualEvent(k, ev, false));
    assert RunClient(p, []) == p;
  }

  /** Two rounds that can still feed a terminal for one run feed two, each within the rules from here on. */
  lemma OverlappingRoundsFeedTwoTerminals(p: Client, m: nat, k: nat, ev: WireEvent)
    requires MayFeed(p, m) && MayFeed(p, k) && m != k && IsFinalMarker(ev)
    requires p.manuals[m].bag.text == p.manuals[k].bag.text < |p.requests|
    ensures OrderlyRun(p, BothEnd(m, k, ev))
    ensures Finals(RunClient(p, BothEnd(m, k, ev)).log, p.manuals[m].bag.text) == Finals(p.log, p.manuals[m].bag.text) + 2
  {
    FourSteps(p, m, k, ev);
    BothEndIsOrderly(p, m, k, ev);
    hide Next, RunClient, OrderlyRun, BothEnd, IsFinalMarker, Finals;
    var p1 := OpenedLives(p, m);
    assert MayFeed(p1, k);
    var p2 := OpenedLives(p1, k);
    BothFeed(p2, m, k, ev);
  }

  lemma BothEndIsOrderly(p: Client, m: nat, k: nat, ev: WireEvent)
    ensures OrderlyRun(p, BothEnd(m, k, ev))
  {
    hide RunClient;
    assert forall step :: step in BothEnd(m, k, ev) ==> step.ManualOpened? || (step.ManualEvent? && !step.parserDone);
  }

  lemma BothFeed(p: Client, m: nat, k: nat, ev: WireEvent)
    requires ManualIn(p, m, Live) && ManualIn(p, k, Live) && m != k && IsFinalMarker(ev)
    requires p.manuals[m].ticket == p.manuals[k].ticket == p.core.generation
    requires !p.manuals[m].bag.terminalApplied && !p.manuals[k].bag.terminalApplied
    requires p.manuals[m].bag.text == p.manuals[k].bag.text
    ensures var n := Next(Next(p, ManualEvent(m, ev, false)).client, ManualEvent(k, ev, false)).client;
            Finals(n.log, p.manuals[m].bag.text) == Finals(p.log, p.manuals[m].bag.text) + 2
  {
    hide Next, IsFinalMarker;
    var r := p.manuals[m].bag.text;
    FreshRoundFeedsTerminal(p, m, ev);
    var p1 := Next(p, ManualEvent(m, ev, false)).client;
    FreshRoundFeedsTerminal(p1, k, ev);
    FinalsAfter(p.log, IsFinal, r, r);
    FinalsAfter(p1.log, IsFinal, r, r);
  }

  /** Calling a round on an unterminated run makes the next call overlap with it. */
  lemma EachCallOverlapsWithTheNext(p: Client)
    requires HasUnterminatedRecovery(p.core)
    ensures Overlaps(Next(p, ManualCall).client)
  {
    hide RequestStep, CancelStep;
    assert MayFeed(Next(p, ManualCall).client, |p.manuals|);
  }

  /** No orderly continuation ever feeds a second terminal for a task. */
  ghost predicate StaysAtMostOne(p: Client) {
    forall steps :: OrderlyRun(p, steps) ==> AtMostOne(RunClient(p, steps))
  }

  /**
   * The code does not test for other rounds. Calling one keeps the law for every
   * orderly continuation exactly when no other round can still feed a terminal
   * for the run that it recovers.
   */
  lemma {:induction false} RoundMayBeCalledExactlyWithoutOverlap(p: Client)
    requires Good(p)
    ensures StaysAtMostOne(Next(p, ManualCall).client) <==> !Overlaps(p)
  {
    var n := Next(p, ManualCall).client;
    if Overlaps(p) {
      var m: nat :| MayFeed(p, m) && p.manuals[m].bag.text == p.core.run.anchor.value.text;
      var k := |p.manuals|;
      var ev := WireEvent(None, StatusUpdate, map[], map["final" := Str("true")]);
      assert IsFinalMarker(ev);
      CalledMayFeed(p, m);
      hide Next, OrderlyRun;
      OverlappingRoundsFeedTwoTerminals(n, m, k, ev);
      assert !AtMostOne(RunClient(n, BothEnd(m, k, ev)));
    } else {
      SlotStep(p, ManualCall);
      AnchorStep(p, ManualCall);
      OneTerminalStep(p, ManualCall);
      hide *;
      forall steps | OrderlyRun(n, steps) ensures AtMostOne(RunClient(n, steps)) { StaysGood(n, steps); GoodIsAtMostOne(RunClient(n, steps)); }
    }
  }

  lemma GoodIsAtMostOne(p: Client)
    requires Good(p)
    ensures AtMostOne(p)
  {
  }

  lemma CalledMayFeed(p: Client, m: nat)
    requires Good(p) && HasUnterminatedRecovery(p.core) && MayFeed(p, m) && p.manuals[m].bag.text == p.core.run.anchor.value.text
    ensures var n, k := Next(p, ManualCall).client, |p.manuals|;
            && MayFeed(n, m) && MayFeed(n, k) && m != k
            && n.manuals[m].bag.text == n.manuals[k].bag.text < |n.requests|
  {
    hide Consume;
    assert ManualMarks(p, m);
  }
}
