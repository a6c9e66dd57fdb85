/** The run and the runner together: what a whole recovery round does to an interrupted run. */
module RecoveredRun {
  import opened Json
  import opened Translate
  import opened RunState
  import Recovery

  /** The run takes in what each attempt hands on, attempt after attempt. */
  function ConsumeRounds<T>(r: Run<T>, rounds: seq<seq<WireEvent>>): Run<T> {
    if rounds == [] then r
    else ConsumeAll(ConsumeRounds(r, rounds[..|rounds| - 1]), rounds[|rounds| - 1])
  }

  /** The engine answers every replay with the part of the log after `since`; the wire may cut it anywhere. */
  ghost predicate HonestEngine(env: Recovery.Environment, log: seq<WireEvent>, since: int) {
    forall i: nat :: exists reached: nat :: HonestReplay(log, since, Attempt(reached, env.replay(i).events))
  }

  /** Where a subscription sets in: at some log position not behind `n`, where the task id was known. */
  ghost predicate SetsIn<T>(r0: Run<T>, log: seq<WireEvent>, n: nat, delivered: seq<WireEvent>, m: nat, reached: nat) {
    && m <= n <= |log| && ConsumeAll(r0, log[..m]).bag.ctx.taskRunId.Some?
    && HonestReplay(log, SinceSeq(ConsumeAll(r0, log[..m])), Attempt(reached, delivered))
  }

  /** Every subscription sets in where the run was interrupted or earlier, so that nothing is missing. */
  ghost predicate SeamlessSubscriptions<T>(env: Recovery.Environment, r0: Run<T>, log: seq<WireEvent>, n: nat) {
    forall j: nat :: exists m: nat, reached: nat :: SetsIn(r0, log, n, env.subscribe(j).events, m, reached)
  }

  lemma NothingConsumed<T>(r: Run<T>)
    ensures ConsumeAll(r, []) == r
  {
  }

  lemma {:induction false} ConsumeInTwoSteps<T>(r: Run<T>, a: seq<WireEvent>, b: seq<WireEvent>)
    ensures ConsumeAll(r, a + b) == ConsumeAll(ConsumeAll(r, a), b)
  {
    hide Consume;
    if b == [] {
      assert a + b == a;
    } else {
      ConsumeInTwoSteps(r, a, b[..|b| - 1]);
      assert (a + b)[..|a + b| - 1] == a + b[..|b| - 1];
    }
  }

  lemma {:induction false} PrefixesOfAfter(log: seq<WireEvent>, since: int, m: nat, p: seq<WireEvent>) returns (k: nat)
    requires m <= |log| && p <= After(log[..m], since)
    ensures k <= m && After(log[..k], since) == p
  {
    if p == After(log[..m], since) { return m; }
    assert log[..m][..m - 1] == log[..m - 1];
    k := PrefixesOfAfter(log, since, m - 1, p);
  }

  lemma {:induction false} NumberedOfPrefix(events: seq<WireEvent>, n: nat)
    requires n <= |events|
    ensures Numbered(events[..n]) <= Numbered(events)
    decreases |events|
  {
    if n < |events| {
      NumberedOfPrefix(events[..|events| - 1], n);
      assert events[..|events| - 1][..n] == events[..n];
    } else {
      assert events[..n] == events;
    }
  }

  lemma CutReplayIsHonest(log: seq<WireEvent>, since: int, a: Attempt, p: seq<WireEvent>) returns (cut: Attempt)
    requires HonestReplay(log, since, a) && p <= a.delivered
    ensures HonestReplay(log, since, cut) && cut.delivered == p
  {
    assert p == a.delivered[..|p|];
    NumberedOfPrefix(a.delivered, |p|);
    var k := PrefixesOfAfter(log, since, a.reached, Numbered(p));
    assert forall e :: e in p ==> e in a.delivered;
    cut := Attempt(k, p);
  }

  lemma {:induction false} MarkerEndsTheLog(log: seq<WireEvent>, since: int, k: nat, e: WireEvent)
    requires WellFormedLog(log) && k <= |log| && e in After(log[..k], since) && IsFinalMarker(e)
    ensures k == |log|
  {
    if e in After(log[..k - 1], since) {
      MarkerEndsTheLog(log, since, k - 1, e);
    } else {
      assert log[..k][..k - 1] == log[..k - 1];
      assert log[k - 1] == e;
    }
  }

  lemma {:induction false} NumberedKeepsMarkers(events: seq<WireEvent>, e: WireEvent)
    requires e in events && e.seqNo.Some?
    ensures e in Numbered(events)
  {
    if e in events[..|events| - 1] { NumberedKeepsMarkers(events[..|events| - 1], e); }
  }

  /** One replay that was cut off anywhere moves the run from log position `at` on to some `k`. */
  lemma OneRound<T>(r0: Run<T>, log: seq<WireEvent>, n: nat, at: nat, replay: Attempt, handed: seq<WireEvent>) returns (k: nat)
    requires WellFormedLog(log) && Fresh(r0) && n <= at <= |log|
    requires ConsumeAll(r0, log[..n]).bag.ctx.taskRunId.Some?
    requires HonestReplay(log, SinceSeq(ConsumeAll(r0, log[..n])), replay) && handed <= replay.delivered
    ensures at <= k <= |log|
    ensures ConsumeAll(ConsumeAll(r0, log[..at]), handed) == ConsumeAll(r0, log[..k])
    ensures forall e :: e in handed && IsFinalMarker(e) ==> k == |log|
  {
    hide Consume;
    var since := SinceSeq(ConsumeAll(r0, log[..n]));
    var a := CutReplayIsHonest(log, since, replay, handed);
    TaskIdAtPrefix(r0, log, n, at);
    OnlyNumberedEventsMatter(ConsumeAll(r0, log[..at]), handed);
    ReplayAdvancesTo(r0, log, n, at, a.reached);
    k := RunState.Max(at, a.reached);
    forall e | e in handed && IsFinalMarker(e) ensures k == |log| {
      assert !Unnumbered(e);
      NumberedKeepsMarkers(handed, e);
      MarkerEndsTheLog(log, since, a.reached, e);
    }
  }

  ghost predicate SawMarker(rounds: seq<seq<WireEvent>>) {
    exists i, e :: 0 <= i < |rounds| && e in rounds[i] && IsFinalMarker(e)
  }

  /** One attempt, with or without a detour. */
  lemma OneAttempt<T>(env: Recovery.Environment, r0: Run<T>, log: seq<WireEvent>, n: nat, at: nat, i: nat,
                      handed: seq<WireEvent>, detoured: bool) returns (k: nat)
    requires WellFormedLog(log) && Fresh(r0) && n <= at <= |log|
    requires ConsumeAll(r0, log[..n]).bag.ctx.taskRunId.Some?
    requires HonestEngine(env, log, SinceSeq(ConsumeAll(r0, log[..n])))
    requires Recovery.HandedOn(env, i, handed, detoured) && (detoured ==> SeamlessSubscriptions(env, r0, log, n))
    ensures at <= k <= |log|
    ensures ConsumeAll(ConsumeAll(r0, log[..at]), handed) == ConsumeAll(r0, log[..k])
    ensures forall e :: e in handed && IsFinalMarker(e) ==> k == |log|
  {
    hide Consume, WellFormedLog, HonestReplay, ConsumeAll;
    var since := SinceSeq(ConsumeAll(r0, log[..n]));
    var reached: nat :| HonestReplay(log, since, Attempt(reached, env.replay(i).events));
    if !detoured {
      k := OneRound(r0, log, n, at, Attempt(reached, env.replay(i).events), handed);
    } else {
      var cut: nat, j: nat :| Recovery.HandedInTwo(env, i, handed, cut, j);
      var between := OneRound(r0, log, n, at, Attempt(reached, env.replay(i).events), handed[..cut]);
      var m: nat, reach: nat :| SetsIn(r0, log, n, env.subscribe(j).events, m, reach);
      k := OneRound(r0, log, m, between, Attempt(reach, env.subscribe(j).events), handed[cut..]);
      assert handed == handed[..cut] + handed[cut..];
      ConsumeInTwoSteps(ConsumeAll(r0, log[..at]), handed[..cut], handed[cut..]);
    }
  }

  predicate Appends(ev: WireEvent, seqNo: int) {
    ev.kind.ArtifactUpdate? && ev.seqNo == Some(seqNo) && PartsText(ev.member).Some? && Get(ev.member, "append") != Bool(false)
  }

  lemma AppendedText<T>(r: Run<T>, ev: WireEvent, seqNo: int)
    requires Appends(ev, seqNo) && (r.cursor.appliedSeq.None? || r.cursor.appliedSeq.value < seqNo)
    ensures var x := Consume(r, ev).run;
            x.fullText == r.fullText + PartsText(ev.member).value && x.cursor.appliedSeq == Some(seqNo)
  {
    hide PartsText, TaskIdOf;
  }

  /** A subscription that sets in behind a gap does lose text: no part of the log leaves such a run. */
  lemma {:induction false} LateSubscriptionLosesText<T>(r0: Run<T>, task: WireEvent, missed: WireEvent, next: WireEvent)
    requires Fresh(r0) && r0.fullText == "" && task.kind.Task? && task.seqNo.None?
    requires Appends(missed, 1) && PartsText(missed.member).value != "" && Appends(next, 2)
    ensures WellFormedLog([task, missed, next])
    ensures forall k :: 0 <= k <= 3 ==>
              ConsumeAll(ConsumeAll(r0, [task]), [next]) != ConsumeAll(r0, [task, missed, next][..k])
  {
    var log := [task, missed, next];
    hide Consume, ConsumeAll, PartsText;
    NothingConsumed(r0);
    TaskShowsNothing(r0, task);
    ConsumeOneMore(r0, [], task);
    assert [] + [task] == [task] && [task] + [missed] == [task, missed] && [task, missed] + [next] == log;
    var begun := ConsumeAll(r0, [task]);
    NothingConsumed(begun);
    ConsumeOneMore(begun, [], next);
    assert [] + [next] == [next];
    AppendedText(begun, next, 2);
    ConsumeOneMore(r0, [task], missed);
    AppendedText(begun, missed, 1);
    ConsumeOneMore(r0, [task, missed], next);
    AppendedText(ConsumeAll(r0, [task, missed]), next, 2);
    var cut := ConsumeAll(begun, [next]);
    assert cut.cursor.appliedSeq == Some(2) && ConsumeAll(r0, log).fullText != cut.fullText;
    assert log[..0] == [] && log[..1] == [task] && log[..2] == [task, missed] && log[..3] == log;
    forall k | 0 <= k <= 3 ensures cut != ConsumeAll(r0, log[..k]) {
      assert k == 0 || k == 1 || k == 2 || k == 3;
    }
  }

  lemma TaskShowsNothing<T>(r: Run<T>, ev: WireEvent)
    requires Fresh(r) && ev.kind.Task? && ev.seqNo.None?
    ensures Consume(r, ev).run.fullText == r.fullText && Consume(r, ev).run.cursor.appliedSeq.None?
  {
    hide TaskIdOf;
  }

  /**
   * Any recovery leaves the run exactly where an uninterrupted reading of some
   * longer part of the log would have left it, and at its very end once a final
   * marker was handed on, as long as each subscription that it took a detour to
   * sets in where the run was interrupted or earlier.
   */
  lemma {:induction false} RecoveryEqualsUninterruptedRun<T>(
    env: Recovery.Environment, r0: Run<T>, log: seq<WireEvent>, n: nat, rounds: seq<seq<WireEvent>>, detours: seq<bool>)
    returns (k: nat)
    requires WellFormedLog(log) && Fresh(r0) && n <= |log|
    requires ConsumeAll(r0, log[..n]).bag.ctx.taskRunId.Some?
    requires HonestEngine(env, log, SinceSeq(ConsumeAll(r0, log[..n])))
    requires |rounds| == |detours| && forall i :: 0 <= i < |rounds| ==> Recovery.HandedOn(env, i, rounds[i], detours[i])
    requires true in detours ==> SeamlessSubscriptions(env, r0, log, n)
    ensures n <= k <= |log|
    ensures ConsumeRounds(ConsumeAll(r0, log[..n]), rounds) == ConsumeAll(r0, log[..k])
    ensures SawMarker(rounds) ==> k == |log|
  {
    hide Consume, WellFormedLog, ConsumeAll, HonestEngine, SeamlessSubscriptions, Recovery.HandedOn;
    if rounds == [] { return n; }
    var last := |rounds| - 1;
    var at := RecoveryEqualsUninterruptedRun(env, r0, log, n, rounds[..last], detours[..last]);
    k := OneAttempt(env, r0, log, n, at, last, rounds[last], detours[last]);
    if SawMarker(rounds) {
      var i, e :| 0 <= i < |rounds| && e in rounds[i] && IsFinalMarker(e);
      assert i < last ==> rounds[..last][i] == rounds[i];
    }
  }

  /**
   * The recovery of an interrupted run: the runner goes to work from the run's
   * own cursor, and the run takes in what it hands on. The run ends up where an
   * uninterrupted reading of some longer part of the log leaves it, and at the
   * end of the log when the runner reports a terminal, unless a subscription
   * that set in too late handed on something.
   */
  method RunRecovery<T>(runner: Recovery.RecoveryRunner, interrupted: Run<T>, taskId: string,
                        ghost r0: Run<T>, ghost log: seq<WireEvent>, ghost n: nat)
    returns (ending: Recovery.Ending, recovered: Run<T>, ghost k: nat)
    requires runner.trace == [] && runner.rounds == [] && runner.detours == [] && runner.marks == []
    requires WellFormedLog(log) && Fresh(r0) && n <= |log| && interrupted == ConsumeAll(r0, log[..n])
    requires interrupted.bag.ctx.taskRunId == Some(taskId)
    requires HonestEngine(runner.env, log, SinceSeq(interrupted))
    modifies runner
    ensures |runner.rounds| == |runner.detours| <= Recovery.Max(runner.maxAttempts, 0)
    ensures recovered == ConsumeRounds(interrupted, runner.rounds)
    ensures true !in runner.detours || SeamlessSubscriptions(runner.env, r0, log, n) ==>
              && n <= k <= |log| && recovered == ConsumeAll(r0, log[..k])
              && (ending.Settle? && ending.outcome.TerminalSeen? ==> k == |log|)
  {
    hide Consume, WellFormedLog, HonestReplay, ConsumeAll, SeamlessSubscriptions, Recovery.HandedOn;
    ghost var start;
    ending, start := runner.Run(taskId, interrupted.cursor.appliedSeq);
    recovered := ConsumeRounds(interrupted, runner.rounds);
    k := n;
    if true !in runner.detours || SeamlessSubscriptions(runner.env, r0, log, n) {
      k := RecoveryEqualsUninterruptedRun(runner.env, r0, log, n, runner.rounds, runner.detours);
      if ending.Settle? && ending.outcome.TerminalSeen? {
        var last := runner.rounds[|runner.rounds| - 1];
        assert last[|last| - 1] in last;
      }
    }
  }
}
