/** What abort() and the cancel path claim, over whole runs of a provider. */
module AbortRuns {
  import opened Json
  import opened Translate
  import opened RunState
  import opened Cancel
  import opened Provider
  import opened ProviderRuns
  import Recovery

  // -------------------------------------------------------------------- sends

  /** The log of sends agrees with the tickets: one send for each, and `dispatched` knows about the current one. */
  ghost predicate SendsAreSound(p: Client) {
    && (forall i, j :: 0 <= i < j < |p.log| && p.log[i].Sent? && p.log[j].Sent? ==> p.log[i] != p.log[j])
    && (forall t: nat :: Sent(t) in p.log ==> 0 < t <= p.core.generation)
    && (p.core.dispatched.Some? ==> p.core.dispatched.value <= p.core.generation)
    && (p.core.dispatched == Some(p.core.generation) <==> Sent(p.core.generation) in p.log)
    && (forall r :: 0 <= r < |p.requests| && p.requests[r].phase == AwaitToken ==> Sent(p.requests[r].ticket) !in p.log)
    && (forall g: nat :: Reported(g, NeverSent) in p.log ==> g < p.core.generation && Sent(g) !in p.log)
  }

  /** The log only grows, and sends appear nowhere but in the token step of the current request. */
  ghost predicate SendsNothing(p: Client, n: Client) {
    && n.core.dispatched == p.core.dispatched
    && p.log <= n.log
    && (forall i :: |p.log| <= i < |n.log| ==> !n.log[i].Sent?)
  }

  predicate IsSend(p: Client, step: Step) {
    step.TokenDone? && step.ok && InPhase(p, step.r, AwaitToken) && p.requests[step.r].ticket == p.core.generation
  }

  lemma OtherStepsSendNothing(p: Client, step: Step)
    requires !IsSend(p, step)
    ensures SendsNothing(p, Next(p, step).client)
  {
    if IsCancelStep(step) {
      hide RequestStep, ManualStep, ClassifyCancel, ProbeDisposition;
    } else if IsManualStep(step) {
      hide RequestStep, CancelStep, Consume, ApplyRecoveredIncomplete;
    } else {
      OtherRequestStepsSendNothing(p, step);
      hide Next;
    }
  }

  lemma OtherRequestStepsSendNothing(p: Client, step: Step)
    requires !IsSend(p, step) && !IsCancelStep(step) && !IsManualStep(step)
    ensures SendsNothing(p, Next(p, step).client)
  {
    hide CancelStep, ManualStep;
    if TakesEvents(step) {
      hide Consume, ApplyRecoveredIncomplete;
    } else {
      hide EventOf, RecoveryEnded, RequestTook;
    }
  }

  /** A clean report is only ever added for the generation that ends with it. */
  lemma NewReports(p: Client, step: Step, g: nat, report: AbortReport)
    requires Reported(g, report) in Next(p, step).client.log && Reported(g, report) !in p.log
    ensures step.Abort? && g == p.core.generation && report == AbortOutcome(p.core)
  {
    hide Consume, ApplyRecoveredIncomplete, ClassifyCancel, ProbeDisposition;
  }

  /** Requests that wait for their token were waiting before, or have just taken the slot. */
  lemma NewWaiters(p: Client, step: Step, r: nat)
    requires InPhase(Next(p, step).client, r, AwaitToken)
    ensures var n := Next(p, step).client;
            || (InPhase(p, r, AwaitToken) && n.requests[r].ticket == p.requests[r].ticket && !(IsSend(p, step) && step.r == r))
            || (n.requests[r].ticket == p.core.generation + 1 == n.core.generation)
  {
    if IsCancelStep(step) || IsManualStep(step) {
      CancelAndManualStepsStayOutside(p, step);
      hide Next;
    } else {
      hide CancelStep, ManualStep, EventOf, RecoveryEnded;
    }
  }

  lemma SendIsSound(p: Client, step: Step)
    requires FenceInv(p) && SendsAreSound(p) && IsSend(p, step)
    ensures SendsAreSound(Next(p, step).client)
  {
    var n := Next(p, step).client;
    var t := p.requests[step.r].ticket;
    assert n.log == p.log + [Sent(t)];
    assert Sent(t) !in p.log;
    forall r | 0 <= r < |n.requests| && n.requests[r].phase == AwaitToken ensures Sent(n.requests[r].ticket) !in n.log {
      assert p.requests[r].ticket != t;
    }
  }

  lemma SendStep(p: Client, step: Step)
    requires FenceInv(p) && SendsAreSound(p)
    ensures SendsAreSound(Next(p, step).client)
  {
    if IsSend(p, step) {
      SendIsSound(p, step);
      hide Next, SendsAreSound;
    } else {
      var n := Next(p, step).client;
      OtherStepsSendNothing(p, step);
      SlotStep(p, step);
      forall r | 0 <= r < |n.requests| && n.requests[r].phase == AwaitToken
        ensures (r < |p.requests| && p.requests[r].phase == AwaitToken && n.requests[r].ticket == p.requests[r].ticket)
                || n.requests[r].ticket > p.core.generation
      {
        NewWaiters(p, step, r);
      }
      hide Next, FenceInv;
      forall g: nat | Reported(g, NeverSent) in n.log && Reported(g, NeverSent) !in p.log
        ensures g < n.core.generation && Sent(g) !in p.log
      {
        NewReports(p, step, g, NeverSent);
        NeverSentMeansUnsent(p, step);
      }
      UnsentStaysSound(p, n);
    }
  }

  lemma NeverSentMeansUnsent(p: Client, step: Step)
    requires SendsAreSound(p) && step.Abort? && AbortOutcome(p.core).NeverSent?
    ensures Sent(p.core.generation) !in p.log && p.core.generation < Next(p, step).client.core.generation
  {
  }

  /** A step that sends nothing keeps the books: waiters are old or have a new ticket, clean reports are old or of an unsent request. */
  lemma UnsentStaysSound(p: Client, n: Client)
    requires SendsAreSound(p) && SendsNothing(p, n) && p.core.generation <= n.core.generation
    requires forall r :: 0 <= r < |n.requests| && n.requests[r].phase == AwaitToken ==>
               (r < |p.requests| && p.requests[r].phase == AwaitToken && n.requests[r].ticket == p.requests[r].ticket)
               || n.requests[r].ticket > p.core.generation
    requires forall g: nat :: Reported(g, NeverSent) in n.log && Reported(g, NeverSent) !in p.log ==>
               g < n.core.generation && Sent(g) !in p.log
    ensures SendsAreSound(n)
  {
    assert forall t: nat :: Sent(t) in n.log <==> Sent(t) in p.log;
  }

  // ------------------------------------------------------------------ anchors

  /** While a request holds the slot's ticket, the anchor is there exactly when its task id was seen. */
  ghost predicate AnchorFollowsTask(p: Client) {
    && (forall r :: 0 <= r < |p.requests| ==> p.requests[r].bag.text == r)
    && (forall m :: 0 <= m < |p.manuals| ==> p.manuals[m].bag.ctx.taskRunId.Some? && p.manuals[m].bag.text < |p.requests|)
    && (p.core.run.anchor.Some? ==> p.core.run.anchor.value.text < |p.requests|)
    && (forall r :: 0 <= r < |p.requests| && BeforeTicket(p.requests[r].phase) ==> p.requests[r].bag.ctx.taskRunId.None?)
    && (forall r :: 0 <= r < |p.requests| && Holds(p, r) ==> Anchored(p.core.run.anchor, p.requests[r].bag))
  }

  predicate Anchored(anchor: Option<Anchor<nat>>, bag: Bag<nat>) {
    match bag.ctx.taskRunId
    case None => anchor.None?
    case Some(id) => anchor == Some(Anchor(id, bag.ctx.sessionKey, bag.text))
  }

  lemma ConsumeAnchors<T>(r: Run<T>, ev: WireEvent)
    ensures var x := Consume(r, ev).run;
            && x.bag.text == r.bag.text
            && x.bag.ctx.sessionKey == r.bag.ctx.sessionKey
            && (r.bag.ctx.taskRunId.Some? ==> x.bag.ctx == r.bag.ctx && x.cursor.anchor == r.cursor.anchor)
            && (x.bag.ctx.taskRunId.None? ==> x.cursor.anchor == r.cursor.anchor)
            && (r.bag.ctx.taskRunId.None? && x.bag.ctx.taskRunId.Some? ==>
                  x.cursor.anchor == Some(Anchor(x.bag.ctx.taskRunId.value, r.bag.ctx.sessionKey, r.bag.text)))
  {
    hide TranslateEvent, RollingText, TaskIdOf, IsFinalMarker, StateOf, BuildRunFailure;
  }

  lemma AnchorStep(p: Client, step: Step)
    requires FenceInv(p) && AnchorFollowsTask(p)
    ensures AnchorFollowsTask(Next(p, step).client)
  {
    if IsCancelStep(step) {
      AnchorCancelStep(p, step);
    } else if IsManualStep(step) {
      AnchorManualStep(p, step);
    } else if TakesEvents(step) {
      AnchorEventStep(p, step);
    } else {
      AnchorRequestStep(p, step);
    }
  }

  lemma AnchorCancelStep(p: Client, step: Step)
    requires FenceInv(p) && AnchorFollowsTask(p) && IsCancelStep(step)
    ensures AnchorFollowsTask(Next(p, step).client)
  {
    hide ClassifyCancel, ProbeDisposition;
  }

  lemma AnchorManualStep(p: Client, step: Step)
    requires AnchorFollowsTask(p) && IsManualStep(step)
    ensures AnchorFollowsTask(Next(p, step).client)
  {
    if step.ManualEvent? {
      AnchorManualEventStep(p, step);
      hide *;
    } else if step.ManualDone? {
      AnchorManualEndStep(p, step);
      hide *;
    } else {
      hide RequestStep, CancelStep, ManualEventOf, IncompleteTaken, ManualTook;
      forall r | 0 <= r < |p.requests| && Holds(Next(p, step).client, r) ensures Holds(p, r) {}
    }
  }

  lemma AnchorManualEndStep(p: Client, step: Step)
    requires AnchorFollowsTask(p) && step.ManualDone?
    ensures AnchorFollowsTask(Next(p, step).client)
  {
    hide RequestStep, CancelStep, ManualEventOf;
    var n := Next(p, step).client;
    assert n.core.run.anchor == p.core.run.anchor && n.core.generation == p.core.generation;
    forall r | 0 <= r < |n.requests| && Holds(n, r) ensures Anchored(n.core.run.anchor, n.requests[r].bag) {
      assert Holds(p, r);
    }
  }

  lemma AnchorManualEventStep(p: Client, step: Step)
    requires AnchorFollowsTask(p) && step.ManualEvent?
    ensures AnchorFollowsTask(Next(p, step).client)
  {
    hide Consume, RequestStep, CancelStep, IncompleteTaken;
    if ManualIn(p, step.m, Live) {
      ConsumeAnchors(RunOf(p.core, p.manuals[step.m].bag, p.requests[p.manuals[step.m].bag.text].text), step.ev);
      var n := Next(p, step).client;
      assert n.core.run.anchor == p.core.run.anchor && n.core.generation == p.core.generation;
      forall r | 0 <= r < |n.requests| && Holds(n, r) ensures Anchored(n.core.run.anchor, n.requests[r].bag) {
        assert Holds(p, r);
      }
    }
  }

  /** What taking an event or a fetched result does to a bag and the anchor. */
  predicate KeepsAnchor(c: Core<nat>, ticket: nat, bag: Bag<nat>, t: Taken<nat>) {
    && t.core.generation == c.generation && t.bag.text == bag.text
    && (ticket != c.generation ==> t.core.run == c.run && t.bag == bag)
    && (t.core.run.anchor == c.run.anchor || (t.core.run.anchor.Some? && t.core.run.anchor.value.text == bag.text))
    && (Anchored(c.run.anchor, bag) ==> Anchored(t.core.run.anchor, t.bag))
  }

  lemma EventKeepsAnchor(c: Core<nat>, ticket: nat, bag: Bag<nat>, text: string, ev: WireEvent, parserDone: bool)
    ensures KeepsAnchor(c, ticket, bag, EventTaken(c, ticket, bag, text, ev, parserDone))
  {
    hide Consume;
    ConsumeAnchors(RunOf(c, bag, text), ev);
  }

  lemma RecoveryEndKeepsAnchor(c: Core<nat>, ticket: nat, bag: Bag<nat>, text: string, outcome: Recovery.RecoveryOutcome, parserDone: bool)
    ensures KeepsAnchor(c, ticket, bag, RecoveryEnded(c, ticket, bag, text, outcome, parserDone))
  {
  }

  lemma TookKeepsAnchors(p: Client, r: nat, t: Taken<nat>, phase: Phase)
    requires FenceInv(p) && AnchorFollowsTask(p) && r < |p.requests| && !BeforeTicket(phase)
    requires HasTicket(p.requests[r].phase) && KeepsAnchor(p.core, p.requests[r].ticket, p.requests[r].bag, t)
    ensures AnchorFollowsTask(RequestTook(p, r, t, phase).client)
  {
    var n := RequestTook(p, r, t, phase).client;
    forall s | 0 <= s < |n.requests| && Holds(n, s) ensures Anchored(n.core.run.anchor, n.requests[s].bag) {
      assert Holds(p, s);
      if s != r { assert p.requests[r].ticket != p.core.generation; }
    }
  }

  lemma AnchorEventStep(p: Client, step: Step)
    requires FenceInv(p) && AnchorFollowsTask(p) && TakesEvents(step)
    ensures AnchorFollowsTask(Next(p, step).client)
  {
    hide FenceInv, AnchorFollowsTask, EventTaken, RecoveryEnded, KeepsAnchor, RequestTook;
    if step.r >= |p.requests| { return; }
    var req := p.requests[step.r];
    if step.RecoveryDone? {
      var t := RecoveryEnded(p.core, req.ticket, req.bag, req.text, step.outcome, step.parserDone);
      RecoveryEndKeepsAnchor(p.core, req.ticket, req.bag, req.text, step.outcome, step.parserDone);
      if req.phase == Recovering { TookKeepsAnchors(p, step.r, t, Finished); }
    } else {
      var t := EventOf(p, step.r, step.ev, step.parserDone);
      EventKeepsAnchor(p.core, req.ticket, req.bag, req.text, step.ev, step.parserDone);
      if HasTicket(req.phase) {
        TookKeepsAnchors(p, step.r, t, Closing);
        TookKeepsAnchors(p, step.r, t, Streaming);
        TookKeepsAnchors(p, step.r, t, Recovering);
      }
    }
  }

  lemma TakeIsAnchored(p: Client, r: nat)
    requires FenceInv(p) && AnchorFollowsTask(p) && r < |p.requests| && BeforeTicket(p.requests[r].phase)
    ensures AnchorFollowsTask(Take(p, r))
  {
    var n := Take(p, r);
    assert forall s :: 0 <= s < |n.requests| && s != r ==> n.requests[s] == p.requests[s];
  }

  lemma AnchorRequestStep(p: Client, step: Step)
    requires FenceInv(p) && AnchorFollowsTask(p) && !IsCancelStep(step) && !IsManualStep(step) && !TakesEvents(step)
    ensures AnchorFollowsTask(Next(p, step).client)
  {
    hide AnchorFollowsTask, FenceInv, CancelStep, ManualStep, EventOf, RecoveryEnded, RequestTook;
    var n := Next(p, step).client;
    if n.core.generation != p.core.generation {
      TakeIsAnchored(p, step.r);
    } else {
      BagsStay(p, step);
      hide Next;
      CalmStepIsAnchored(p, n);
    }
  }

  /** Steps of requests without events that take no slot. */
  lemma BagsStay(p: Client, step: Step)
    requires !IsCancelStep(step) && !IsManualStep(step) && !TakesEvents(step)
    requires Next(p, step).client.core.generation == p.core.generation
    ensures CalmStep(p, Next(p, step).client)
  {
    hide CancelStep, ManualStep;
    if step.TokenDone? || step.StreamBroken? || step.StreamEnded? {
      BagsStayAtTheEnd(p, step);
      hide RequestStep, CalmStep;
    } else {
      hide EventOf, RecoveryEnded, RequestTook, StreamBroke, TokenWaited;
    }
  }

  lemma BagsStayAtTheEnd(p: Client, step: Step)
    requires step.TokenDone? || step.StreamBroken? || step.StreamEnded?
    ensures CalmStep(p, RequestStep(p, step).client)
  {
    hide EventOf, RecoveryEnded, RequestTook;
  }

  /** A step that leaves the anchor, the generation and every bag alone. */
  ghost predicate CalmStep(p: Client, n: Client) {
    && n.core.run.anchor == p.core.run.anchor && n.core.generation == p.core.generation && n.manuals == p.manuals
    && |p.requests| <= |n.requests| <= |p.requests| + 1
    && (forall r :: 0 <= r < |p.requests| ==>
          && n.requests[r].bag == p.requests[r].bag && n.requests[r].ticket == p.requests[r].ticket
          && (HasTicket(n.requests[r].phase) ==> HasTicket(p.requests[r].phase))
          && (BeforeTicket(n.requests[r].phase) ==> BeforeTicket(p.requests[r].phase)))
    && (|n.requests| > |p.requests| ==>
          var q := n.requests[|p.requests|];
          q.phase == AwaitParser && q.bag.text == |p.requests| && q.bag.ctx.taskRunId.None?)
  }

  lemma CalmStepIsAnchored(p: Client, n: Client)
    requires AnchorFollowsTask(p) && CalmStep(p, n)
    ensures AnchorFollowsTask(n)
  {
    forall r | 0 <= r < |n.requests| && Holds(n, r) ensures Anchored(n.core.run.anchor, n.requests[r].bag) {
      assert Holds(p, r);
    }
  }

  // ------------------------------------------------------------------ reports

  /**
   * What the reports claim stays true: an unknown outcome was sent and never saw a
   * task id, and a cancel names the task of its request and comes with its ban.
   */
  ghost predicate ReportsAreTrue(p: Client) {
    && (forall g: nat :: Reported(g, OutcomeUnknown) in p.log ==>
          g < p.core.generation && Sent(g) in p.log
          && forall r :: 0 <= r < |p.requests| && p.requests[r].ticket == g && g > 0 ==> p.requests[r].bag.ctx.taskRunId.None?)
    && (forall i :: 0 <= i < |p.log| && p.log[i].Reported? && p.log[i].report.WireCancel? ==>
          i + 1 < |p.log| && p.log[i + 1] == Banned(p.log[i].report.sessionKey))
  }

  lemma UnknownReportStep(p: Client, step: Step, g: nat)
    requires FenceInv(p) && SendsAreSound(p) && AnchorFollowsTask(p) && ReportsAreTrue(p)
    requires Reported(g, OutcomeUnknown) in Next(p, step).client.log
    ensures var n := Next(p, step).client;
            && g < n.core.generation && Sent(g) in n.log
            && forall r :: 0 <= r < |n.requests| && n.requests[r].ticket == g && g > 0 ==> n.requests[r].bag.ctx.taskRunId.None?
  {
    hide Consume, ApplyRecoveredIncomplete, ClassifyCancel, ProbeDisposition;
    var n := Next(p, step).client;
    if Reported(g, OutcomeUnknown) in p.log {
      SlotStep(p, step);
      assert p.log <= n.log by { if !IsSend(p, step) { OtherStepsSendNothing(p, step); } }
      forall r | 0 <= r < |n.requests| && n.requests[r].ticket == g && g > 0 ensures n.requests[r].bag.ctx.taskRunId.None? {
        assert r < |p.requests| && p.requests[r].ticket == g by { NewTickets(p, step, r); }
        SupersededStep(p, step, r);
      }
    } else {
      NewReports(p, step, g, OutcomeUnknown);
      forall r | 0 <= r < |n.requests| && n.requests[r].ticket == g && g > 0 ensures n.requests[r].bag.ctx.taskRunId.None? {
        var h: nat :| Holds(p, h);
        assert h == r;
        assert Anchored(p.core.run.anchor, p.requests[r].bag);
      }
    }
  }

  lemma NewTickets(p: Client, step: Step, r: nat)
    requires r < |Next(p, step).client.requests| && 0 < Next(p, step).client.requests[r].ticket <= p.core.generation
    ensures r < |p.requests| && p.requests[r].ticket == Next(p, step).client.requests[r].ticket
  {
    if IsCancelStep(step) || IsManualStep(step) {
      CancelAndManualStepsStayOutside(p, step);
      hide Next;
    } else {
      hide CancelStep, ManualStep, EventOf, RecoveryEnded;
    }
  }

  lemma CancelReportStep(p: Client, step: Step)
    requires ReportsAreTrue(p)
    ensures var n := Next(p, step).client;
            forall i :: 0 <= i < |n.log| && n.log[i].Reported? && n.log[i].report.WireCancel? ==>
              i + 1 < |n.log| && n.log[i + 1] == Banned(n.log[i].report.sessionKey)
  {
    hide CancelStep, ManualStep, RequestStep;
    var n := Next(p, step).client;
    NewReportComesWithItsBan(p, step);
    forall i | 0 <= i < |n.log| && n.log[i].Reported? && n.log[i].report.WireCancel?
      ensures i + 1 < |n.log| && n.log[i + 1] == Banned(n.log[i].report.sessionKey)
    {
      if i < |p.log| { assert n.log[i] == p.log[i]; }
    }
  }

  /** What a step adds to the log: a reported cancel is followed by its ban at once. */
  lemma NewReportComesWithItsBan(p: Client, step: Step)
    ensures var n := Next(p, step).client;
            && p.log <= n.log
            && forall i :: |p.log| <= i < |n.log| && n.log[i].Reported? && n.log[i].report.WireCancel? ==>
                 i + 1 < |n.log| && n.log[i + 1] == Banned(n.log[i].report.sessionKey)
  {
    if IsCancelStep(step) {
      hide RequestStep, ManualStep, ClassifyCancel, ProbeDisposition;
    } else if IsManualStep(step) {
      hide RequestStep, CancelStep, ManualEventOf, IncompleteTaken;
    } else {
      hide CancelStep, ManualStep, EventOf, RecoveryEnded;
    }
  }

  // ------------------------------------------------------------------ cancels

  /** Every cancel call has its ban on record before it goes out, and goes out at most once. */
  ghost predicate CancelsAreBanned(p: Client) {
    && (forall c :: 0 <= c < |p.cancels| ==> Banned(p.cancels[c].contextId) in p.log)
    && (forall i :: 0 <= i < |p.log| && p.log[i].CancelSent? ==>
          p.log[i].call < |p.cancels| && Banned(p.cancels[p.log[i].call].contextId) in p.log[..i])
    && (forall i, j :: 0 <= i < j < |p.log| && p.log[i].CancelSent? && p.log[j].CancelSent? ==> p.log[i] != p.log[j])
    && (forall c: nat :: c < |p.cancels| && p.cancels[c].phase == CancelQueued ==> CancelSent(c) !in p.log)
  }

  /** The cancel calls of a client only change their phase; a new one is queued together with its ban. */
  lemma CancelBooks(p: Client, step: Step)
    ensures var n := Next(p, step).client;
            && p.log <= n.log
            && |p.cancels| <= |n.cancels| <= |p.cancels| + 1
            && (forall c :: 0 <= c < |p.cancels| ==>
                  && n.cancels[c].contextId == p.cancels[c].contextId
                  && n.cancels[c].taskId == p.cancels[c].taskId
                  && (n.cancels[c].phase == CancelQueued ==> p.cancels[c].phase == CancelQueued))
            && (|n.cancels| > |p.cancels| ==> n.log != p.log && n.log[|n.log| - 1] == Banned(n.cancels[|p.cancels|].contextId))
  {
    if IsCancelStep(step) {
      hide RequestStep, ManualStep, ClassifyCancel, ProbeDisposition;
    } else if IsManualStep(step) {
      hide RequestStep, CancelStep, ManualEventOf, IncompleteTaken;
    } else {
      hide CancelStep, ManualStep, EventOf, RecoveryEnded;
    }
  }

  lemma CancelSends(p: Client, step: Step, i: nat)
    requires |p.log| <= i < |Next(p, step).client.log| && Next(p, step).client.log[i].CancelSent?
    ensures step.CancelToken? && step.ok && CancelIn(p, step.c, CancelQueued)
    ensures Next(p, step).client.log == p.log + [CancelSent(step.c)]
    ensures Next(p, step).client.cancels[step.c].phase != CancelQueued
  {
    hide Consume, ApplyRecoveredIncomplete, ClassifyCancel, ProbeDisposition;
  }

  lemma CancelStepIsBanned(p: Client, step: Step)
    requires CancelsAreBanned(p)
    ensures CancelsAreBanned(Next(p, step).client)
  {
    hide Next;
    var n := Next(p, step).client;
    CancelBooks(p, step);
    forall i | 0 <= i < |n.log| && n.log[i].CancelSent?
      ensures n.log[i].call < |n.cancels| && Banned(n.cancels[n.log[i].call].contextId) in n.log[..i]
    {
      if i < |p.log| {
        assert n.log[..i] == p.log[..i] && n.log[i] == p.log[i];
      } else {
        CancelSends(p, step, i);
        assert n.log[..i] == p.log;
      }
    }
    forall i, j | 0 <= i < j < |n.log| && n.log[i].CancelSent? && n.log[j].CancelSent? ensures n.log[i] != n.log[j] {
      if j >= |p.log| {
        CancelSends(p, step, j);
        assert n.log[i] == p.log[i] && p.log[i] in p.log;
      } else {
        assert n.log[i] == p.log[i] && n.log[j] == p.log[j];
      }
    }
    forall c: nat | c < |n.cancels| && n.cancels[c].phase == CancelQueued ensures CancelSent(c) !in n.log {
      if CancelSent(c) in n.log {
        var i :| 0 <= i < |n.log| && n.log[i] == CancelSent(c);
        if i >= |p.log| { CancelSends(p, step, i); }
      }
    }
    forall c | 0 <= c < |n.cancels| ensures Banned(n.cancels[c].contextId) in n.log {
      if c < |p.cancels| {
        assert Banned(p.cancels[c].contextId) in p.log;
      }
    }
  }

  // --------------------------------------------------------------- the theorem

  ghost predicate Truthful(p: Client) {
    FenceInv(p) && SendsAreSound(p) && AnchorFollowsTask(p) && ReportsAreTrue(p) && CancelsAreBanned(p)
  }

  /**
   * Over every run: a request is sent at most once and never after its abort was
   * reported as never sent; an unknown outcome was sent without a task id; each
   * cancel is preceded by its ban and issued once.
   */
  lemma {:induction false} AbortTellsTheTruth(rpcUrl: string, scope: Option<string>, steps: seq<Step>)
    ensures Truthful(RunClient(Initial(rpcUrl, scope), steps))
  {
    if steps != [] {
      AbortTellsTheTruth(rpcUrl, scope, steps[..|steps| - 1]);
      TruthfulStep(RunClient(Initial(rpcUrl, scope), steps[..|steps| - 1]), steps[|steps| - 1]);
    }
  }

  lemma TruthfulStep(p: Client, step: Step)
    requires Truthful(p)
    ensures Truthful(Next(p, step).client)
  {
    hide Next, FenceInv, SendsAreSound, AnchorFollowsTask, CancelsAreBanned;
    SlotStep(p, step);
    SendStep(p, step);
    AnchorStep(p, step);
    CancelReportStep(p, step);
    CancelStepIsBanned(p, step);
    forall g: nat | Reported(g, OutcomeUnknown) in Next(p, step).client.log
      ensures var n := Next(p, step).client;
              && g < n.core.generation && Sent(g) in n.log
              && forall r :: 0 <= r < |n.requests| && n.requests[r].ticket == g && g > 0 ==> n.requests[r].bag.ctx.taskRunId.None?
    {
      UnknownReportStep(p, step, g);
    }
  }

  /** No ban is placed when nothing can be cancelled, and one is when a task id was seen. */
  lemma AbortPlacesBanExactlyWithATask(p: Client, r: nat)
    requires Truthful(p) && p.core.isRequesting && Holds(p, r)
    ensures var id := p.requests[r].bag.ctx.taskRunId;
            Next(p, Abort).ban == if id.Some? then Place(p.requests[r].bag.ctx.sessionKey) else NoBan
    ensures p.requests[r].bag.ctx.taskRunId.Some? ==>
              var c := Next(p, Abort).client.cancels;
              |c| == |p.cancels| + 1 && c[|p.cancels|].taskId == p.requests[r].bag.ctx.taskRunId.value
  {
    assert Anchored(p.core.run.anchor, p.requests[r].bag);
  }
}
