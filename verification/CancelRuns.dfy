/** How often a task can be cancelled, and when it cannot be any more. */
module CancelRuns {
  import opened Json
  import opened Translate
  import opened RunState
  import opened Provider
  import opened ProviderRuns
  import opened AbortRuns
  import opened TerminalRuns
  import opened RequestRuns
  import Cancel
  import Recovery

  /** The run that a step queues a CancelTask for. */
  function CancelsRun(p: Client, step: Step): Option<nat> {
    if |Next(p, step).client.cancels| > |p.cancels| && p.core.run.anchor.Some? then Some(p.core.run.anchor.value.text) else None
  }

  /** Exactly which steps queue a CancelTask: an abort of a request in the slot, and the cancel of an unterminated task. */
  lemma CancelsRunExactly(p: Client, step: Step)
    ensures CancelsRun(p, step).Some? <==>
            p.core.run.anchor.Some?
            && ((step.Abort? && p.core.isRequesting) || (step.CancelUnterminated? && !p.core.run.runSettled && !p.core.isRequesting))
    ensures |Next(p, step).client.cancels| > |p.cancels| ==>
            p.core.run.anchor.Some? && Next(p, step).client.cancels[|p.cancels|].taskId == p.core.run.anchor.value.taskRunId
  {
    if IsCancelStep(step) {
      hide RequestStep, ManualStep, Cancel.ClassifyCancel, ProbeDisposition;
    } else if IsManualStep(step) {
      hide RequestStep, CancelStep, EventTaken, IncompleteTaken;
    } else {
      hide CancelStep, ManualStep, EventTaken, RecoveryEnded;
    }
  }

  predicate IsAnchor(p: Client, r: nat) { p.core.run.anchor.Some? && p.core.run.anchor.value.text == r }

  /** The run of request `r` has had its slot, and if it is still the provider's run it is settled and not in flight. */
  predicate Retired(p: Client, r: nat) {
    && IsPast(p, r)
    && (IsAnchor(p, r) ==> p.core.run.runSettled && !p.core.isRequesting)
    && (Holds(p, r) ==> IsAnchor(p, r))
  }

  /** A step that leaves the provider's run alone, up to the settled mark, and takes no slot. */
  predicate LeavesRun(p: Client, n: Client, r: nat) {
    && IsPast(n, r)
    && (n.core.run.anchor == p.core.run.anchor || (n.core.run.anchor.Some? && n.core.run.anchor.value.text != r && !Holds(n, r)))
    && (p.core.run.runSettled ==> n.core.run.runSettled)
    && (n.core.isRequesting ==> p.core.isRequesting)
    && (Holds(n, r) ==> Holds(p, r))
  }

  lemma LeftRunsStayRetired(p: Client, n: Client, r: nat)
    requires Retired(p, r) && LeavesRun(p, n, r)
    ensures Retired(n, r)
  {
  }

  lemma CancelStepsLeaveRuns(p: Client, step: Step, r: nat)
    requires FenceInv(p) && IsPast(p, r) && IsCancelStep(step)
    ensures LeavesRun(p, Next(p, step).client, r)
  {
    hide RequestStep, ManualStep, Cancel.ClassifyCancel, ProbeDisposition;
  }

  lemma ManualStepsLeaveRuns(p: Client, step: Step, r: nat)
    requires AnchorFollowsTask(p) && IsPast(p, r) && IsManualStep(step)
    ensures LeavesRun(p, Next(p, step).client, r)
  {
    if step.ManualEvent? {
      ManualEventsLeaveRuns(p, step, r);
      hide Next, LeavesRun;
    } else {
      hide RequestStep, CancelStep, ManualEventOf;
    }
  }

  lemma ManualEventsLeaveRuns(p: Client, step: Step, r: nat)
    requires AnchorFollowsTask(p) && IsPast(p, r) && step.ManualEvent?
    ensures LeavesRun(p, Next(p, step).client, r)
  {
    hide RequestStep, CancelStep, Consume, IncompleteTaken;
    if ManualIn(p, step.m, Live) {
      var m := p.manuals[step.m];
      ConsumeAnchors(RunOf(p.core, m.bag, p.requests[m.bag.text].text), step.ev);
      ConsumeMarksTerminal(RunOf(p.core, m.bag, p.requests[m.bag.text].text), step.ev);
    }
  }

  lemma TookLeavesRun(p: Client, q: nat, t: Taken<nat>, phase: Phase, r: nat)
    requires FenceInv(p) && AnchorFollowsTask(p) && IsPast(p, r) && (Holds(p, r) ==> IsAnchor(p, r))
    requires q < |p.requests| && HasTicket(p.requests[q].phase) && !BeforeTicket(phase)
    requires KeepsAnchor(p.core, p.requests[q].ticket, p.requests[q].bag, t)
    requires TookTerminal(p.core, p.requests[q].ticket, p.requests[q].bag, t)
    requires p.requests[q].bag.ctx.taskRunId.Some? ==> t.core.run.anchor == p.core.run.anchor
    ensures LeavesRun(p, RequestTook(p, q, t, phase).client, r)
  {
    var n := RequestTook(p, q, t, phase).client;
    if t.core.run.anchor != p.core.run.anchor {
      assert Holds(p, q);
      assert r != q;
      assert Holds(n, r) ==> Holds(p, r);
    }
  }

  lemma TakenKeepsANamedAnchor(c: Core<nat>, ticket: nat, bag: Bag<nat>, text: string, ev: WireEvent, parserDone: bool)
    requires bag.ctx.taskRunId.Some?
    ensures EventTaken(c, ticket, bag, text, ev, parserDone).core.run.anchor == c.run.anchor
  {
    hide Consume;
    ConsumeAnchors(RunOf(c, bag, text), ev);
  }

  lemma EventStepsLeaveRuns(p: Client, step: Step, r: nat)
    requires FenceInv(p) && AnchorFollowsTask(p) && Retired(p, r) && TakesEvents(step)
    ensures LeavesRun(p, Next(p, step).client, r)
  {
    hide FenceInv, AnchorFollowsTask, EventTaken, KeepsAnchor, TookTerminal, RequestTook, CancelStep, ManualStep;
    if step.r >= |p.requests| { return; }
    var req := p.requests[step.r];
    if step.RecoveryDone? {
      var t := RecoveryEnded(p.core, req.ticket, req.bag, req.text, step.outcome, step.parserDone);
      RecoveryEndKeepsAnchor(p.core, req.ticket, req.bag, req.text, step.outcome, step.parserDone);
      RecoveryEndTookTerminal(p.core, req.ticket, req.bag, req.text, step.outcome, step.parserDone);
      if req.phase == Recovering { TookLeavesRun(p, step.r, t, Finished, r); }
    } else if HasTicket(req.phase) {
      var t := EventOf(p, step.r, step.ev, step.parserDone);
      EventKeepsAnchor(p.core, req.ticket, req.bag, req.text, step.ev, step.parserDone);
      EventTookTerminal(p.core, req.ticket, req.bag, req.text, step.ev, step.parserDone);
      if req.bag.ctx.taskRunId.Some? { TakenKeepsANamedAnchor(p.core, req.ticket, req.bag, req.text, step.ev, step.parserDone); }
      var phase := if step.RecoveryEvent? then Recovering else if StopsReading(p.core, req.ticket, t) then Closing else Streaming;
      TookLeavesRun(p, step.r, t, phase, r);
    }
  }

  lemma TakingRetires(p: Client, q: nat, r: nat)
    requires FenceInv(p) && Retired(p, r) && q < |p.requests| && BeforeTicket(p.requests[q].phase)
    ensures Retired(Take(p, q), r)
  {
  }

  lemma OtherStepsStayRetired(p: Client, step: Step, r: nat)
    requires FenceInv(p) && Retired(p, r) && !IsCancelStep(step) && !IsManualStep(step) && !TakesEvents(step)
    ensures Retired(Next(p, step).client, r)
  {
    hide FenceInv, CancelStep, ManualStep, EventOf, RecoveryEnded, RequestTook;
    var n := Next(p, step).client;
    if n.core.generation != p.core.generation { TakingRetires(p, step.r, r); }
  }

  lemma RetiredStep(p: Client, step: Step, r: nat)
    requires FenceInv(p) && AnchorFollowsTask(p) && Retired(p, r)
    ensures Retired(Next(p, step).client, r)
    ensures CancelsRun(p, step) != Some(r)
  {
    CancelsRunExactly(p, step);
    hide Next, FenceInv, AnchorFollowsTask, LeavesRun;
    if IsCancelStep(step) {
      CancelStepsLeaveRuns(p, step, r);
      LeftRunsStayRetired(p, Next(p, step).client, r);
    } else if IsManualStep(step) {
      ManualStepsLeaveRuns(p, step, r);
      LeftRunsStayRetired(p, Next(p, step).client, r);
    } else if TakesEvents(step) {
      EventStepsLeaveRuns(p, step, r);
      LeftRunsStayRetired(p, Next(p, step).client, r);
    } else {
      OtherStepsStayRetired(p, step, r);
    }
  }

  lemma {:induction false} RetiredForGood(p: Client, steps: seq<Step>, r: nat)
    requires FenceInv(p) && AnchorFollowsTask(p) && Retired(p, r)
    ensures var n := RunClient(p, steps); FenceInv(n) && AnchorFollowsTask(n) && Retired(n, r)
  {
    hide Next, FenceInv, AnchorFollowsTask, Retired;
    if steps != [] {
      var last := |steps| - 1;
      RetiredForGood(p, steps[..last], r);
      var before := RunClient(p, steps[..last]);
      SlotStep(before, steps[last]);
      AnchorStep(before, steps[last]);
      RetiredStep(before, steps[last], r);
    }
  }

  /** No continuation ever queues another CancelTask for the run. */
  ghost predicate NeverCancelledAgain(p: Client, r: nat) {
    forall steps, step :: CancelsRun(RunClient(p, steps), step) != Some(r)
  }

  /**
   * The run that the provider's anchor names is never cancelled again, by any
   * continuation, exactly when it is settled and no request is in the slot.
   */
  lemma {:induction false} NoMoreCancelsExactlyWhenSettled(p: Client)
    requires FenceInv(p) && AnchorFollowsTask(p) && OwnersArePast(p) && p.core.run.anchor.Some?
    ensures NeverCancelledAgain(p, p.core.run.anchor.value.text) <==> p.core.run.runSettled && !p.core.isRequesting
  {
    var r := p.core.run.anchor.value.text;
    if p.core.run.runSettled && !p.core.isRequesting {
      assert Retired(p, r);
      forall steps, step ensures CancelsRun(RunClient(p, steps), step) != Some(r) {
        RetiredForGood(p, steps, r);
        RetiredStep(RunClient(p, steps), step, r);
      }
    } else {
      var step := if p.core.isRequesting then Abort else CancelUnterminated;
      CancelsRunExactly(p, step);
      assert RunClient(p, []) == p;
      assert CancelsRun(RunClient(p, []), step) == Some(r);
    }
  }

  function Repeated(step: Step, n: nat): seq<Step> { if n == 0 then [] else Repeated(step, n - 1) + [step] }

  /** Until then there is no bound: each further call of the host queues one more CancelTask for the same task. */
  lemma {:induction false} UnsettledTaskIsCancelledAnyNumberOfTimes(p: Client, n: nat)
    requires HasUnterminatedRecovery(p.core)
    ensures var q := RunClient(p, Repeated(CancelUnterminated, n));
            && q.core.run == p.core.run && HasUnterminatedRecovery(q.core)
            && |q.cancels| == |p.cancels| + n
            && forall c :: |p.cancels| <= c < |q.cancels| ==> q.cancels[c].taskId == p.core.run.anchor.value.taskRunId
  {
    hide RunClient, Next, HasUnterminatedRecovery;
    if n == 0 {
      NoStepsTaken(p);
    } else {
      UnsettledTaskIsCancelledAnyNumberOfTimes(p, n - 1);
      OneMoreStep(p, Repeated(CancelUnterminated, n - 1), CancelUnterminated);
      OneMoreCancel(RunClient(p, Repeated(CancelUnterminated, n - 1)));
    }
  }

  lemma NoStepsTaken(p: Client)
    ensures RunClient(p, []) == p
  {
  }

  lemma OneMoreCancel(p: Client)
    requires HasUnterminatedRecovery(p.core)
    ensures var q := Next(p, CancelUnterminated).client;
            && p.core.run.anchor.Some? && q.core.run == p.core.run && HasUnterminatedRecovery(q.core)
            && |q.cancels| == |p.cancels| + 1 && q.cancels[..|p.cancels|] == p.cancels
            && q.cancels[|p.cancels|].taskId == p.core.run.anchor.value.taskRunId
  {
    hide RequestStep, ManualStep;
  }

  /** An abort does not end the task: it sends one CancelTask, and any number may follow while the run is not settled. */
  lemma AbortedTaskCanBeCancelledAgain(p: Client, n: nat)
    requires AbortOutcome(p.core).WireCancel?
    ensures var a := Next(p, Abort).client;
            |RunClient(a, Repeated(CancelUnterminated, n)).cancels| == |p.cancels| + 1 + if p.core.run.runSettled then 0 else n
  {
    var a := Next(p, Abort).client;
    if p.core.run.runSettled {
      SettledRunsAreLeft(a, n);
    } else {
      UnsettledTaskIsCancelledAnyNumberOfTimes(a, n);
    }
  }

  lemma {:induction false} SettledRunsAreLeft(p: Client, n: nat)
    requires p.core.run.runSettled
    ensures RunClient(p, Repeated(CancelUnterminated, n)) == p
  {
    if n > 0 {
      SettledRunsAreLeft(p, n - 1);
      OneMoreStep(p, Repeated(CancelUnterminated, n - 1), CancelUnterminated);
      hide RunClient;
    }
  }
}
