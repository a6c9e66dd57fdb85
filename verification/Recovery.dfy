/** The recovery runner: attempts, back-off and deadline against a moving clock (recovery.ts). */
module Recovery {
  import opened Json
  import opened Rpc
  import opened Translate

  datatype RecoveryOutcome =
    | Resumed
    | ResumedIncomplete(state: Option<string>, latestText: Option<string>)
    | TerminalSeen(terminalState: string)
    | UnknownResult
    | BudgetExhausted
    | Fatal(failure: WireFailure)
    | CancelledRound

  /** A thrown error; an untyped one carries no failure. */
  datatype CallError = CallError(failure: Option<WireFailure>)

  datatype StreamEnd = Done | Broken(error: CallError) | Hang

  /** What the environment lets a stream do: each event after some wait, then its end. */
  datatype Script = Script(events: seq<WireEvent>, waits: nat -> nat, ending: StreamEnd)

  datatype TaskReply = Reply(found: bool, state: Option<string>, latestText: Option<string>) | ReplyError(error: CallError) | NoReply

  type Jitter = x: real | 0.0 <= x < 1.0 witness 0.0

  /** Every choice that is not the runner's: one entry for each call, clock reading or question. */
  datatype Environment = Environment(
    replay: nat -> Script, subscribe: nat -> Script, getTask: nat -> TaskReply, getTaskWait: nat -> nat,
    cancelled: nat -> bool, jitter: nat -> Jitter, drift: nat -> int)

  datatype Call = ReplayEvents(taskId: string, sinceSeq: int) | GetTask(taskId: string) | SubscribeToTask(taskId: string)

  datatype Act =
    | Slept(attempt: nat, ms: int, from: int)
    | Waited(ms: int, from: int)
    | Rode(ms: int)
    | TurnedBack(ms: int)
    | Called(attempt: nat, call: Call)
    | Threw(error: CallError)
    | Answered(reply: TaskReply)
    | Delivered(ev: WireEvent)
    | Ended(delivered: nat)

  function Min(a: int, b: int): int { if a < b then a else b }
  function Max(a: int, b: int): int { if a < b then b else a }

  function CallTimeout(): CallError { CallError(Some(TransportFailure("call_timeout"))) }

  predicate IsFatal(e: CallError) { e.failure.Some? && IsLockCandidate(e.failure.value.kind) }

  predicate IsRefusal(e: CallError) {
    && e.failure.Some? && e.failure.value.kind.RpcKind? && e.failure.value.rpcError.Some?
    && ReasonOf(e.failure.value.rpcError.value) in {Some("cache_limit"), Some("not_found_or_expired")}
  }

  predicate IsTerminalState(state: string) { state in {COMPLETED, FAILED, CANCELED, REJECTED} }

  /** The cap of the sleep before attempt `attempt` + 1: the last cap repeats, no caps means no sleep. */
  function CapFor(caps: seq<nat>, attempt: nat): nat
    requires attempt > 0
  {
    if caps == [] then 0 else if attempt - 1 < |caps| then caps[attempt - 1] else caps[|caps| - 1]
  }

  /** The caps are used in their order, and the last one from then on. */
  lemma CapsComeInOrder(caps: seq<nat>, attempt: nat)
    requires attempt > 0
    ensures attempt <= |caps| ==> CapFor(caps, attempt) == caps[attempt - 1]
    ensures attempt > |caps| ==> CapFor(caps, attempt) == if caps == [] then 0 else caps[|caps| - 1]
  {
  }

  /** What an error of the engine means for a recovery: a refused authentication stops it, a refused replay goes to triage, others are tried again. */
  lemma EngineErrorsAreSorted(error: RpcError)
    ensures var e, reason := CallError(Some(ClassifyRpcError(error))), ReasonOf(error);
            && (IsFatal(e) <==> error.code == -32000 && reason in {Some("auth_required"), Some("ZERO_CHECK_FAILED")})
            && (IsRefusal(e) <==> reason in {Some("cache_limit"), Some("not_found_or_expired")})
  {
  }

  /** A broken protocol stops a recovery; a broken transport, a timeout and an untyped error do not, and none of them is a refusal. */
  lemma OtherErrorsAreSorted(reason: string)
    ensures IsFatal(CallError(Some(ProtocolFailure(reason)))) && !IsRefusal(CallError(Some(ProtocolFailure(reason))))
    ensures forall e :: e in {CallError(Some(TransportFailure(reason))), CallTimeout(), CallError(None)} ==> !IsFatal(e) && !IsRefusal(e)
  {
  }

  function Backoff(cap: nat, jitter: Jitter): int {
    (cap as real / 2.0 + jitter * (cap as real / 2.0)).Floor
  }

  /** An untruncated sleep lies between half its cap and its cap. */
  lemma BackoffIsWithinCap(cap: nat, jitter: Jitter)
    ensures cap / 2 <= Backoff(cap, jitter) <= cap
  {
    var half := cap as real / 2.0;
    assert 0.0 <= jitter * half <= half;
    assert (cap / 2) as real <= half;
  }

  /** And each sleep between the two, short of the cap itself, occurs for some jitter. */
  lemma EverySleepOccurs(cap: nat, ms: nat) returns (jitter: Jitter)
    requires cap / 2 <= ms < cap
    ensures Backoff(cap, jitter) == ms
  {
    var half := cap as real / 2.0;
    if ms as real <= half {
      jitter := 0.0;
    } else {
      ShareOf(ms as real - half, half);
      jitter := (ms as real - half) / half;
    }
  }

  lemma ShareOf(part: real, whole: real)
    requires 0.0 < part < whole
    ensures 0.0 <= part / whole < 1.0 && part / whole * whole == part
  {
    var share := part / whole;
    assert share * whole == part;
    assert (share - 1.0) * whole == part - whole;
    if share >= 1.0 { NotNegative(share - 1.0, whole); }
  }

  lemma NotNegative(a: real, b: real)
    requires a >= 0.0 && b >= 0.0
    ensures a * b >= 0.0
  {
  }

  // ---------------------------------------------------------- laws of a trace

  function Calls(trace: seq<Act>): seq<Act> {
    if trace == [] then []
    else
      var rest, last := Calls(trace[..|trace| - 1]), trace[|trace| - 1];
      if last.Called? then rest + [last] else rest
  }

  function Rank(c: Call): nat {
    match c case ReplayEvents(_, _) => 0 case GetTask(_) => 1 case SubscribeToTask(_) => 2
  }

  /** Calls are numbered by attempt and by place in the attempt's chain. */
  function Code(a: Act): int
    requires a.Called?
  {
    3 * a.attempt + Rank(a.call)
  }

  /** The calls happen in strictly growing code order from attempt 1, all on one task, all replays from one seq. */
  ghost predicate Budgeted(trace: seq<Act>, taskId: string, since: int, limit: int) {
    if trace == [] then limit >= 3
    else
      var last := trace[|trace| - 1];
      if last.Called? then
        && Code(last) < limit
        && last.call.taskId == taskId
        && (last.call.ReplayEvents? ==> last.call.sinceSeq == since)
        && Budgeted(trace[..|trace| - 1], taskId, since, Code(last))
      else Budgeted(trace[..|trace| - 1], taskId, since, limit)
  }

  lemma {:induction false} MoreCallsAllowed(trace: seq<Act>, taskId: string, since: int, limit: int, more: int)
    requires Budgeted(trace, taskId, since, limit) && limit <= more
    ensures Budgeted(trace, taskId, since, more)
  {
    if trace != [] && !trace[|trace| - 1].Called? {
      MoreCallsAllowed(trace[..|trace| - 1], taskId, since, limit, more);
    }
  }

  lemma NothingDoneYet(taskId: string, since: int, caps: seq<nat>, start: int, deadline: int)
    ensures Budgeted([], taskId, since, 3) && OnTime([], caps, start, deadline, start) && NoFatal([]) && EndsAtFatal([])
  {
  }

  /** Time spent in sleeps and in waits that a timer guards. */
  function Timed(trace: seq<Act>): int {
    if trace == [] then 0
    else
      var last := trace[|trace| - 1];
      Timed(trace[..|trace| - 1])
      + match last case Slept(_, ms, _) => ms case Waited(ms, _) => ms case _ => 0
  }

  /** How far the clock ran backwards between two readings, in all. */
  function Backwards(trace: seq<Act>): int {
    if trace == [] then 0
    else
      var last := trace[|trace| - 1];
      Backwards(trace[..|trace| - 1]) + match last case TurnedBack(ms) => ms case _ => 0
  }

  /** Sleeps and guarded waits follow one another, each of them ends by the deadline, and sleeps obey their cap. */
  ghost predicate OnTime(trace: seq<Act>, caps: seq<nat>, start: int, deadline: int, now: int) {
    if trace == [] then start <= now
    else
      var rest, last := trace[..|trace| - 1], trace[|trace| - 1];
      match last
      case Slept(attempt, ms, from) =>
        && 0 <= ms && from + ms <= now
        && attempt > 0
        && (from + ms <= deadline || ms == 0)
        && ms <= CapFor(caps, attempt)
        && (CapFor(caps, attempt) / 2 <= ms || from + ms >= deadline)
        && OnTime(rest, caps, start, deadline, from)
      case Waited(ms, from) =>
        && 0 <= ms && from + ms <= now && from + ms <= deadline
        && OnTime(rest, caps, start, deadline, from)
      case Rode(ms) => 0 <= ms && OnTime(rest, caps, start, deadline, now - ms)
      case TurnedBack(ms) => 0 <= ms && OnTime(rest, caps, start, deadline, now + ms)
      case _ => OnTime(rest, caps, start, deadline, now)
  }

  ghost predicate NoFatal(trace: seq<Act>) {
    forall a :: a in trace && a.Threw? ==> !IsFatal(a.error)
  }

  /** An authentication or protocol failure is the last thing that happens in a run. */
  ghost predicate EndsAtFatal(trace: seq<Act>) {
    forall i :: 0 <= i < |trace| && trace[i].Threw? && IsFatal(trace[i].error) ==> i == |trace| - 1
  }

  lemma {:induction false} TimeMovesForward(trace: seq<Act>, caps: seq<nat>, start: int, deadline: int, now: int, later: int)
    requires OnTime(trace, caps, start, deadline, now) && now <= later
    ensures OnTime(trace, caps, start, deadline, later)
  {
    if trace != [] {
      var rest, last := trace[..|trace| - 1], trace[|trace| - 1];
      match last
      case Slept(_, ms, from) =>
      case Waited(ms, from) =>
      case Rode(ms) => TimeMovesForward(rest, caps, start, deadline, now - ms, later - ms);
      case TurnedBack(ms) => TimeMovesForward(rest, caps, start, deadline, now + ms, later + ms);
      case _ => TimeMovesForward(rest, caps, start, deadline, now, later);
    }
  }

  /** All sleeps and guarded waits of a run together fit into the budget and what the clock was turned back meanwhile. */
  lemma {:induction false} TimedWithinBudget(trace: seq<Act>, caps: seq<nat>, start: int, deadline: int, now: int)
    requires OnTime(trace, caps, start, deadline, now)
    ensures 0 <= Backwards(trace) && 0 <= Timed(trace) <= now - start + Backwards(trace)
    ensures Timed(trace) <= Max(deadline - start, 0) + Backwards(trace)
    ensures (forall a :: a in trace ==> !a.TurnedBack?) ==> Backwards(trace) == 0
  {
    if trace != [] {
      var rest, last := trace[..|trace| - 1], trace[|trace| - 1];
      match last
      case Slept(_, _, from) => TimedWithinBudget(rest, caps, start, deadline, from);
      case Waited(_, from) => TimedWithinBudget(rest, caps, start, deadline, from);
      case Rode(ms) => TimedWithinBudget(rest, caps, start, deadline, now - ms);
      case TurnedBack(ms) => TimedWithinBudget(rest, caps, start, deadline, now + ms);
      case _ => TimedWithinBudget(rest, caps, start, deadline, now);
    }
  }

  function Replays(trace: seq<Act>): nat {
    if trace == [] then 0
    else
      Replays(trace[..|trace| - 1])
      + (if trace[|trace| - 1].Called? && trace[|trace| - 1].call.ReplayEvents? then 1 else 0)
  }

  function CallsOf(trace: seq<Act>, attempt: nat): nat {
    if trace == [] then 0
    else
      CallsOf(trace[..|trace| - 1], attempt)
      + (if trace[|trace| - 1].Called? && trace[|trace| - 1].attempt == attempt then 1 else 0)
  }

  /** Below code 3 * (a + 1) lie at most `a` replays and, for each attempt, at most three calls. */
  lemma {:induction false} CallsWithinBudget(trace: seq<Act>, taskId: string, since: int, limit: int, attempt: nat)
    requires Budgeted(trace, taskId, since, limit)
    ensures limit >= 3
    ensures 3 * Replays(trace) < limit
    ensures CallsOf(trace, attempt) <= Max(0, Min(3, limit - 3 * attempt))
  {
    if trace != [] {
      var rest, last := trace[..|trace| - 1], trace[|trace| - 1];
      CallsWithinBudget(rest, taskId, since, if last.Called? then Code(last) else limit, attempt);
    }
  }

  // --------------------------------------------------------------- the runner

  /** How a part of a run ends: with an outcome, with a failed attempt, with an error, or never. */
  datatype Ending = Settle(outcome: RecoveryOutcome) | Retry | Raised(error: CallError) | Suspended

  ghost predicate Lasts(trace: seq<Act>, a: Act) { trace != [] && trace[|trace| - 1] == a }

  /** The evidence behind each outcome is the last thing the run saw. */
  ghost predicate Justified(outcome: RecoveryOutcome, trace: seq<Act>) {
    match outcome
    case TerminalSeen(state) =>
      trace != [] && trace[|trace| - 1].Delivered? && IsFinalMarker(trace[|trace| - 1].ev)
      && state == StateOf(trace[|trace| - 1].ev.member)
    case UnknownResult =>
      trace != [] && trace[|trace| - 1].Answered? && trace[|trace| - 1].reply.Reply? && !trace[|trace| - 1].reply.found
    case ResumedIncomplete(state, text) =>
      Lasts(trace, Answered(Reply(true, state, text))) && state.Some? && IsTerminalState(state.value)
    case Fatal(failure) => Lasts(trace, Threw(CallError(Some(failure)))) && IsLockCandidate(failure.kind)
    case _ => true
  }

  /** The call that was made last. */
  function LastCall(trace: seq<Act>): Option<Call> {
    if trace == [] then None
    else if trace[|trace| - 1].Called? then Some(trace[|trace| - 1].call)
    else LastCall(trace[..|trace| - 1])
  }

  /**
   * What the last thing seen decides, by the call it came from: a refused replay
   * and an active task decide nothing yet, every other failure and an empty or
   * merely watched stream let the next attempt run.
   */
  function Verdict(trace: seq<Act>): Option<Ending> {
    if trace == [] then None
    else
      var ofReplay := LastCall(trace).Some? && LastCall(trace).value.ReplayEvents?;
      match trace[|trace| - 1]
      case Delivered(ev) => if IsFinalMarker(ev) then Some(Settle(TerminalSeen(StateOf(ev.member)))) else None
      case Ended(delivered) => Some(if ofReplay && delivered > 0 then Settle(Resumed) else Retry)
      case Threw(e) =>
        if IsFatal(e) then Some(Settle(Fatal(e.failure.value)))
        else if ofReplay && IsRefusal(e) then None
        else Some(Retry)
      case Answered(Reply(found, state, text)) =>
        if !found then Some(Settle(UnknownResult))
        else if IsTerminalState(OrElse(state, "")) then Some(Settle(ResumedIncomplete(state, text)))
        else None
      case _ => None
  }

  lemma OneMoreAct(trace: seq<Act>, a: Act)
    ensures (trace + [a])[..|trace|] == trace
    ensures LastCall(trace + [a]) == if a.Called? then Some(a.call) else LastCall(trace)
  {
    assert (trace + [a])[..|trace|] == trace;
  }

  /** What an attempt may hand on: a part of its replay, and behind it a part of a subscription if it took a detour. */
  ghost predicate HandedOn(env: Environment, i: nat, handed: seq<WireEvent>, detoured: bool) {
    if !detoured then handed <= env.replay(i).events
    else exists cut: nat, j: nat :: HandedInTwo(env, i, handed, cut, j)
  }

  ghost predicate HandedInTwo(env: Environment, i: nat, handed: seq<WireEvent>, cut: nat, j: nat) {
    cut <= |handed| && handed[..cut] <= env.replay(i).events && handed[cut..] <= env.subscribe(j).events
  }

  /** A terminal was seen as the last event handed on. */
  ghost predicate EndsWithItsMarker(r: Ending, handed: seq<WireEvent>) {
    r.Settle? && r.outcome.TerminalSeen? ==> handed != [] && IsFinalMarker(handed[|handed| - 1])
  }

  class RecoveryRunner {
    const maxAttempts: int
    const totalBudgetMs: int
    const backoffCaps: seq<nat>
    const perCallTimeoutMs: int
    const env: Environment
    var now: int
    var readings: nat
    var questions: nat
    var sleeps: nat
    var tasks: nat
    var subscriptions: nat
    var trace: seq<Act>
    /** What each attempt handed on to the run, and whether some of it came from a subscription. */
    var rounds: seq<seq<WireEvent>>
    var detours: seq<bool>
    /** How much had been seen when each attempt was over. */
    var marks: seq<nat>

    constructor (maxAttempts: int, totalBudgetMs: int, backoffCaps: seq<nat>, perCallTimeoutMs: int,
                 env: Environment, now: int)
      ensures this.maxAttempts == maxAttempts && this.totalBudgetMs == totalBudgetMs
      ensures this.backoffCaps == backoffCaps && this.perCallTimeoutMs == perCallTimeoutMs && this.env == env
      ensures this.now == now && trace == [] && rounds == [] && detours == [] && marks == []
    {
      this.maxAttempts, this.totalBudgetMs, this.backoffCaps := maxAttempts, totalBudgetMs, backoffCaps;
      this.perCallTimeoutMs, this.env, this.now := perCallTimeoutMs, env, now;
      readings, questions, sleeps, tasks, subscriptions, trace, rounds, detours, marks := 0, 0, 0, 0, 0, [], [], [], [];
    }

    /** The invariant of a run in progress: calls below `limit`, timers on time, nothing fatal yet. */
    ghost predicate Good(taskId: string, since: int, limit: int, start: int, deadline: int) reads this {
      && Budgeted(trace, taskId, since, limit)
      && OnTime(trace, backoffCaps, start, deadline, now)
      && NoFatal(trace)
    }

    /** After an error only its own entry may be fatal. */
    ghost predicate GoodUpToError(taskId: string, since: int, limit: int, start: int, deadline: int, e: CallError) reads this {
      && Lasts(trace, Threw(e))
      && Budgeted(trace, taskId, since, limit)
      && OnTime(trace, backoffCaps, start, deadline, now)
      && NoFatal(trace[..|trace| - 1])
    }

    /** The last question whether the round is cancelled was answered with yes. */
    predicate WasCancelled() reads this { questions > 0 && env.cancelled(questions - 1) }

    ghost predicate OutOfTime(deadline: int) reads this { now >= deadline || perCallTimeoutMs <= 0 }

    /** What ends an attempt: the answer to a question, the clock, a stream that stays silent, and else the last thing seen. */
    ghost predicate Decided(r: Ending, deadline: int) reads this {
      if r == Settle(CancelledRound) then WasCancelled()
      else if r == Settle(BudgetExhausted) then OutOfTime(deadline)
      else r.Suspended? || Verdict(trace) == Some(r)
    }

    /** Attempt i hands on a prefix of replay i and, after a detour, a prefix of a subscription. */
    ghost predicate Faithful() reads this {
      && |rounds| == |detours|
      && (forall i :: 0 <= i < |rounds| ==> HandedOn(env, i, rounds[i], detours[i]))
    }

    /** Time passes before each reading of the clock, and the clock may have been turned back. */
    method Now(ghost taskId: string, ghost since: int, ghost limit: int, ghost start: int, ghost deadline: int) returns (t: int)
      requires Good(taskId, since, limit, start, deadline)
      modifies this`now, this`readings, this`trace
      ensures t == now
      ensures Good(taskId, since, limit, start, deadline)
      ensures old(trace) <= trace && LastCall(trace) == old(LastCall(trace))
    {
      var drift := env.drift(readings);
      if drift >= 0 {
        TimeMovesForward(trace, backoffCaps, start, deadline, now, now + drift);
      } else {
        ghost var before := trace;
        trace := trace + [TurnedBack(-drift)];
        OneMoreAct(before, TurnedBack(-drift));
      }
      now, readings := now + drift, readings + 1;
      t := now;
    }

    method IsCancelled() returns (b: bool)
      modifies this`questions
      ensures b == WasCancelled()
    {
      b := env.cancelled(questions);
      questions := questions + 1;
    }

    method Note(a: Act, ghost taskId: string, ghost since: int, ghost limit: int, ghost start: int, ghost deadline: int)
      requires Good(taskId, since, limit, start, deadline)
      requires a.Answered? || a.Delivered? || a.Ended?
      modifies this`trace
      ensures trace == old(trace) + [a] && LastCall(trace) == old(LastCall(trace))
      ensures Good(taskId, since, limit, start, deadline)
    {
      OneMoreAct(trace, a);
      trace := trace + [a];
    }

    method NoteCall(a: Act, ghost taskId: string, ghost since: int, ghost limit: int, ghost start: int, ghost deadline: int)
      requires a.Called? && Good(taskId, since, Code(a), start, deadline) && Code(a) < limit
      requires a.call.taskId == taskId && (a.call.ReplayEvents? ==> a.call.sinceSeq == since)
      modifies this`trace
      ensures trace == old(trace) + [a] && LastCall(trace) == Some(a.call)
      ensures Good(taskId, since, limit, start, deadline)
    {
      OneMoreAct(trace, a);
      trace := trace + [a];
    }

    method NoteError(e: CallError, ghost taskId: string, ghost since: int, ghost limit: int, ghost start: int, ghost deadline: int)
      requires Good(taskId, since, limit, start, deadline)
      modifies this`trace
      ensures trace == old(trace) + [Threw(e)] && LastCall(trace) == old(LastCall(trace))
      ensures GoodUpToError(taskId, since, limit, start, deadline, e)
      ensures !IsFatal(e) ==> Good(taskId, since, limit, start, deadline)
    {
      OneMoreAct(trace, Threw(e));
      trace := trace + [Threw(e)];
    }

    /** A wait that a timer of `budget` guards; it is cut off when the answer takes `ms` or never comes. */
    method WaitGuarded(ms: nat, never: bool, budget: int,
                       ghost taskId: string, ghost since: int, ghost limit: int, ghost start: int, ghost deadline: int)
      returns (inTime: bool)
      requires Good(taskId, since, limit, start, deadline)
      requires 0 < budget <= deadline - now
      modifies this`trace, this`now
      ensures inTime <==> !never && ms < budget
      ensures now == old(now) + if inTime then ms else budget
      ensures old(trace) <= trace && LastCall(trace) == old(LastCall(trace))
      ensures Good(taskId, since, limit, start, deadline)
    {
      inTime := !never && ms < budget;
      var waited := if inTime then ms else budget;
      OneMoreAct(trace, Waited(waited, now));
      trace := trace + [Waited(waited, now)];
      now := now + waited;
    }

    method Ride(ms: nat, ghost taskId: string, ghost since: int, ghost limit: int, ghost start: int, ghost deadline: int)
      requires Good(taskId, since, limit, start, deadline)
      modifies this`trace, this`now
      ensures old(trace) <= trace && LastCall(trace) == old(LastCall(trace))
      ensures Good(taskId, since, limit, start, deadline)
    {
      OneMoreAct(trace, Rode(ms));
      trace := trace + [Rode(ms)];
      now := now + ms;
    }

    /** The wait for item i of a stream or its end: without a timer for an active replay. Retry means that it came. */
    method AwaitNext(script: Script, i: nat, active: bool, ghost taskId: string, ghost since: int, ghost limit: int, ghost start: int, deadline: int)
      returns (r: Ending)
      requires Good(taskId, since, limit, start, deadline) && i <= |script.events|
      modifies this`trace, this`now, this`readings
      ensures old(trace) <= trace && LastCall(trace) == old(LastCall(trace))
      ensures Good(taskId, since, limit, start, deadline)
      ensures match r
              case Raised(e) =>
                GoodUpToError(taskId, since, limit, start, deadline, e) && e == CallTimeout() && TimedOut(script, i, deadline)
              case Suspended => active && script.ending.Hang? && i == |script.events|
              case Settle(outcome) => outcome == BudgetExhausted && OutOfTime(deadline)
              case Retry => !(script.ending.Hang? && i == |script.events|)
    {
      hide Budgeted, OnTime, NoFatal, LastCall;
      var never := i == |script.events| && script.ending.Hang?;
      if active {
        if never { return Suspended; }
        Ride(script.waits(i), taskId, since, limit, start, deadline);
      } else {
        var t := Now(taskId, since, limit, start, deadline);
        var budget := Min(perCallTimeoutMs, deadline - t);
        if budget <= 0 { return Settle(BudgetExhausted); }
        var inTime := WaitGuarded(script.waits(i), never, budget, taskId, since, limit, start, deadline);
        if !inTime {
          NoteError(CallTimeout(), taskId, since, limit, start, deadline);
          return Raised(CallTimeout());
        }
      }
      return Retry;
    }

    ghost predicate TimedOut(script: Script, i: nat, deadline: int) reads this {
      now >= deadline || script.waits(i) >= perCallTimeoutMs || (script.ending.Hang? && i == |script.events|)
    }

    /** An error that a stream raised: its own at its end, or a timeout of the next event. */
    ghost predicate CameOf(script: Script, handed: seq<WireEvent>, e: CallError, deadline: int) reads this {
      || (script.ending == Broken(e) && handed == script.events)
      || (e == CallTimeout() && TimedOut(script, |handed|, deadline))
    }

    /**
     * The stream loop shared by replays (`riding`: no timer once the first event came) and
     * subscriptions. `handed` are the events passed on to the run.
     */
    method ConsumeStream(script: Script, a: Act, riding: bool, ghost taskId: string, ghost since: int, ghost start: int, deadline: int)
      returns (r: Ending, handed: seq<WireEvent>)
      requires a.Called? && Good(taskId, since, Code(a), start, deadline)
      requires a.call.taskId == taskId && (a.call.ReplayEvents? ==> a.call.sinceSeq == since)
      requires riding <==> a.call.ReplayEvents?
      modifies this`trace, this`now, this`readings, this`questions
      ensures r.Raised? ==> GoodUpToError(taskId, since, Code(a) + 1, start, deadline, r.error)
      ensures !r.Raised? || !IsFatal(r.error) ==> Good(taskId, since, Code(a) + 1, start, deadline)
      ensures if r.Raised? then Lasts(trace, Threw(r.error)) && CameOf(script, handed, r.error, deadline) else Decided(r, deadline)
      ensures old(trace) <= trace && (LastCall(trace) == Some(a.call) || r == Settle(CancelledRound))
      ensures r.Settle? ==> !r.outcome.Fatal? && Justified(r.outcome, trace)
      ensures r.Retry? ==> handed == script.events && script.ending.Done? && (riding ==> handed == [])
      ensures r == Settle(Resumed) ==> riding && handed == script.events && handed != []
      ensures r.Suspended? ==> riding && script.ending.Hang?
      ensures handed <= script.events
      ensures forall e :: e in handed && IsFinalMarker(e) ==> r == Settle(TerminalSeen(StateOf(e.member)))
      ensures EndsWithItsMarker(r, handed)
    {
      hide Budgeted, OnTime, NoFatal, EndsAtFatal, LastCall, IsFinalMarker, Verdict, StateOf, CameOf, Decided, Justified;
      handed := [];
      var cancelled := IsCancelled();
      if cancelled {
        MoreCallsAllowed(trace, taskId, since, Code(a), Code(a) + 1);
        CancelDecides(deadline);
        return Settle(CancelledRound), handed;
      }
      NoteCall(a, taskId, since, Code(a) + 1, start, deadline);
      var i := 0;
      while true
        invariant 0 <= i <= |script.events| && handed == script.events[..i]
        invariant Good(taskId, since, Code(a) + 1, start, deadline)
        invariant old(trace) <= trace && LastCall(trace) == Some(a.call)
        invariant forall e :: e in handed ==> !IsFinalMarker(e)
        decreases |script.events| - i
      {
        var delivered;
        r, delivered := TakeNext(script, i, riding, taskId, since, Code(a) + 1, start, deadline);
        if delivered { handed, i := handed + [script.events[i]], i + 1; }
        if !(r.Retry? && delivered) { return; }
        cancelled := IsCancelled();
        if cancelled {
          CancelDecides(deadline);
          return Settle(CancelledRound), handed;
        }
      }
    }

    lemma CancelDecides(deadline: int)
      requires WasCancelled()
      ensures Decided(Settle(CancelledRound), deadline) && Justified(CancelledRound, trace)
    {
    }

    /** One turn of the stream loop behind its first question; Retry with an event delivered means that the loop goes on. */
    method TakeNext(script: Script, i: nat, riding: bool, ghost taskId: string, ghost since: int, ghost limit: int, ghost start: int, deadline: int)
      returns (r: Ending, delivered: bool)
      requires Good(taskId, since, limit, start, deadline) && i <= |script.events|
      requires LastCall(trace).Some? && (riding <==> LastCall(trace).value.ReplayEvents?)
      modifies this`trace, this`now, this`readings, this`questions
      ensures old(trace) <= trace && LastCall(trace) == old(LastCall(trace))
      ensures r.Raised? ==> GoodUpToError(taskId, since, limit, start, deadline, r.error)
      ensures !r.Raised? || !IsFatal(r.error) ==> Good(taskId, since, limit, start, deadline)
      ensures delivered ==> i < |script.events|
      ensures delivered && r.Retry? ==> !IsFinalMarker(script.events[i])
      ensures delivered && !r.Retry? ==> r == Settle(TerminalSeen(StateOf(script.events[i].member))) && IsFinalMarker(script.events[i])
      ensures r.Settle? && r.outcome.TerminalSeen? ==> delivered
      ensures !(delivered && r.Retry?) ==>
                if r.Raised? then Lasts(trace, Threw(r.error)) && CameOf(script, script.events[..i], r.error, deadline) else Decided(r, deadline)
      ensures r.Settle? ==> !r.outcome.Fatal? && Justified(r.outcome, trace)
      ensures r == Settle(Resumed) || (r.Retry? && !delivered) ==> i == |script.events| && script.ending.Done?
      ensures r == Settle(Resumed) ==> riding && i > 0
      ensures r.Retry? && !delivered && riding ==> i == 0
      ensures r.Suspended? ==> riding && script.ending.Hang?
    {
      hide Budgeted, OnTime, NoFatal, LastCall, IsLockCandidate, IsTerminalState;
      delivered := false;
      r := AwaitNext(script, i, i > 0 && riding, taskId, since, limit, start, deadline);
      if !r.Retry? {
        assert |script.events[..i]| == i;
        return;
      }
      if i == |script.events| {
        assert script.events[..i] == script.events;
        if script.ending.Broken? {
          NoteError(script.ending.error, taskId, since, limit, start, deadline);
          return Raised(script.ending.error), false;
        }
        Note(Ended(i), taskId, since, limit, start, deadline);
        return if i > 0 && riding then Settle(Resumed) else Retry, false;
      }
      var ev := script.events[i];
      var cancelled := IsCancelled();
      if cancelled { return Settle(CancelledRound), false; }
      Note(Delivered(ev), taskId, since, limit, start, deadline);
      return if IsFinalMarker(ev) then Settle(TerminalSeen(StateOf(ev.member))) else Retry, true;
    }

    /** GetTask under the per-call timer; a timeout reads as an error. */
    method TimedGetTask(attempt: nat, taskId: string, ghost since: int, ghost start: int, deadline: int)
      returns (reply: TaskReply)
      requires attempt > 0 && Good(taskId, since, 3 * attempt + 1, start, deadline)
      modifies this`trace, this`now, this`readings, this`tasks
      ensures !reply.NoReply?
      ensures reply.ReplyError? ==> GoodUpToError(taskId, since, 3 * attempt + 2, start, deadline, reply.error)
      ensures reply.ReplyError? ==> reply.error == CallTimeout() || reply == env.getTask(old(tasks))
      ensures !reply.ReplyError? || !IsFatal(reply.error) ==> Good(taskId, since, 3 * attempt + 2, start, deadline)
      ensures reply.Reply? ==> reply == env.getTask(old(tasks))
      ensures reply.ReplyError? ==> Lasts(trace, Threw(reply.error))
      ensures reply == ReplyError(CallTimeout()) && env.getTask(old(tasks)) != reply ==>
                OutOfTime(deadline) || env.getTaskWait(old(tasks)) >= perCallTimeoutMs || env.getTask(old(tasks)).NoReply?
      ensures old(trace) <= trace && LastCall(trace) == Some(GetTask(taskId))
    {
      hide Budgeted, OnTime;
      NoteCall(Called(attempt, GetTask(taskId)), taskId, since, 3 * attempt + 2, start, deadline);
      reply := env.getTask(tasks);
      var wait := env.getTaskWait(tasks);
      tasks := tasks + 1;
      var t := Now(taskId, since, 3 * attempt + 2, start, deadline);
      var budget := Min(perCallTimeoutMs, deadline - t);
      var inTime := false;
      if budget > 0 {
        inTime := WaitGuarded(wait, reply.NoReply?, budget, taskId, since, 3 * attempt + 2, start, deadline);
      }
      if !inTime { reply := ReplyError(CallTimeout()); }
      if reply.ReplyError? { NoteError(reply.error, taskId, since, 3 * attempt + 2, start, deadline); }
    }

    /** A detoured replay: GetTask decides, and only an active task is watched further. */
    method RefuseTriage(attempt: nat, taskId: string, ghost since: int, ghost start: int, deadline: int)
      returns (r: Ending, handed: seq<WireEvent>)
      requires attempt > 0 && Good(taskId, since, 3 * attempt + 1, start, deadline)
      modifies this`trace, this`now, this`readings, this`questions, this`tasks, this`subscriptions
      ensures Budgeted(trace, taskId, since, 3 * attempt + 3)
      ensures OnTime(trace, backoffCaps, start, deadline, now)
      ensures EndsAtFatal(trace)
      ensures r.Settle? || r.Retry?
      ensures r.Retry? ==> NoFatal(trace)
      ensures r.Settle? ==> Justified(r.outcome, trace)
      ensures r != Settle(Resumed) && EndsWithItsMarker(r, handed)
      ensures handed <= env.subscribe(old(subscriptions)).events
      ensures old(trace) <= trace && Decided(r, deadline)
    {
      hide Budgeted, OnTime, LastCall;
      handed := [];
      var reply := TimedGetTask(attempt, taskId, since, start, deadline);
      MoreCallsAllowed(trace, taskId, since, 3 * attempt + 2, 3 * attempt + 3);
      if reply.ReplyError? {
        return if IsFatal(reply.error) then Settle(Fatal(reply.error.failure.value)) else Retry, handed;
      }
      var cancelled := IsCancelled();
      if cancelled { return Settle(CancelledRound), handed; }
      Note(Answered(reply), taskId, since, 3 * attempt + 2, start, deadline);
      MoreCallsAllowed(trace, taskId, since, 3 * attempt + 2, 3 * attempt + 3);
      if !reply.found { return Settle(UnknownResult), handed; }
      if IsTerminalState(OrElse(reply.state, "")) {
        return Settle(ResumedIncomplete(reply.state, reply.latestText)), handed;
      }
      r, handed := Watch(attempt, taskId, since, start, deadline);
    }

    /** The subscription to an active task: its clean end is a failed attempt, too. */
    method Watch(attempt: nat, taskId: string, ghost since: int, ghost start: int, deadline: int)
      returns (r: Ending, handed: seq<WireEvent>)
      requires attempt > 0 && Good(taskId, since, 3 * attempt + 2, start, deadline)
      modifies this`trace, this`now, this`readings, this`questions, this`subscriptions
      ensures Budgeted(trace, taskId, since, 3 * attempt + 3)
      ensures OnTime(trace, backoffCaps, start, deadline, now)
      ensures EndsAtFatal(trace)
      ensures r.Settle? || r.Retry?
      ensures r.Retry? ==> NoFatal(trace)
      ensures r.Settle? ==> Justified(r.outcome, trace)
      ensures r != Settle(Resumed) && EndsWithItsMarker(r, handed)
      ensures handed <= env.subscribe(old(subscriptions)).events
      ensures old(trace) <= trace && Decided(r, deadline)
    {
      hide Budgeted, OnTime, LastCall;
      var script := env.subscribe(subscriptions);
      subscriptions := subscriptions + 1;
      r, handed := ConsumeStream(script, Called(attempt, SubscribeToTask(taskId)), false, taskId, since, start, deadline);
      if r.Raised? { r := if IsFatal(r.error) then Settle(Fatal(r.error.failure.value)) else Retry; }
    }

    /** One attempt: one replay, and the triage when the engine refuses it. */
    method Attempt(attempt: nat, taskId: string, since: int, ghost start: int, deadline: int)
      returns (r: Ending, handed: seq<WireEvent>, detoured: bool)
      requires attempt > 0 && Good(taskId, since, 3 * attempt, start, deadline)
      modifies this`trace, this`now, this`readings, this`questions, this`tasks, this`subscriptions
      ensures Budgeted(trace, taskId, since, 3 * attempt + 3)
      ensures OnTime(trace, backoffCaps, start, deadline, now)
      ensures EndsAtFatal(trace)
      ensures !r.Raised?
      ensures r.Retry? ==> NoFatal(trace)
      ensures r.Settle? ==> Justified(r.outcome, trace)
      ensures r.Suspended? ==> env.replay(attempt - 1).ending.Hang?
      ensures old(trace) <= trace && Decided(r, deadline)
      ensures HandedOn(env, attempt - 1, handed, detoured)
      ensures EndsWithItsMarker(r, handed)
      ensures r == Settle(Resumed) ==> !detoured && handed == env.replay(attempt - 1).events && handed != []
    {
      hide Budgeted, OnTime, LastCall;
      detoured := false;
      r, handed := ConsumeStream(env.replay(attempt - 1), Called(attempt, ReplayEvents(taskId, since)), true, taskId, since, start, deadline);
      MoreCallsAllowed(trace, taskId, since, 3 * attempt + 1, 3 * attempt + 3);
      if r.Raised? {
        if IsRefusal(r.error) {
          var more;
          r, more := RefuseTriage(attempt, taskId, since, start, deadline);
          detoured := more != [];
          assert (handed + more)[..|handed|] == handed && (handed + more)[|handed|..] == more;
          assert detoured ==> HandedInTwo(env, attempt - 1, handed + more, |handed|, old(subscriptions));
          handed := handed + more;
        } else {
          r := if IsFatal(r.error) then Settle(Fatal(r.error.failure.value)) else Retry;
        }
      }
    }

    /** A run between its attempts, or at its end with the evidence for its ending. */
    ghost predicate Underway(r: Ending, taskId: string, since: int, start: int, deadline: int) reads this {
      && |rounds| <= Max(maxAttempts, 0) && Faithful()
      && Budgeted(trace, taskId, since, 3 * |rounds| + 3) && OnTime(trace, backoffCaps, start, deadline, now)
      && EndsAtFatal(trace) && (r.Retry? ==> NoFatal(trace)) && !r.Raised?
      && (r.Settle? ==> Justified(r.outcome, trace))
      && (r.Settle? && r.outcome.TerminalSeen? ==> rounds != [] && EndsWithItsMarker(r, rounds[|rounds| - 1]))
      && (r.Suspended? ==> rounds != [] && env.replay(|rounds| - 1).ending.Hang?)
      && (r == Settle(Resumed) ==> rounds != [] && !detours[|rounds| - 1] && rounds[|rounds| - 1] == env.replay(|rounds| - 1).events)
      && EveryFailureIsTriedAgain(r, deadline)
    }

    /**
     * All attempts but the last, and the last of a run in progress, ended with
     * something that lets the next attempt run. A run ends between attempts only
     * when it was cancelled or has no time or attempt left, and else as the last
     * thing seen decides.
     */
    ghost predicate EveryFailureIsTriedAgain(r: Ending, deadline: int) reads this {
      && |marks| == |rounds|
      && (forall i :: 0 <= i < |marks| ==> marks[i] <= |trace|)
      && (forall i :: 0 <= i < |marks| && (r.Retry? || i < |marks| - 1) ==> Verdict(trace[..marks[i]]) == Some(Retry))
      && (if r == Settle(CancelledRound) then WasCancelled()
          else if r == Settle(BudgetExhausted) then |rounds| == Max(maxAttempts, 0) || OutOfTime(deadline)
          else r.Retry? || r.Suspended? || (marks != [] && marks[|marks| - 1] == |trace| && Verdict(trace) == Some(r)))
    }

    lemma MarkedPartsStay(before: seq<Act>, places: seq<nat>)
      requires before <= trace && forall i :: 0 <= i < |places| ==> places[i] <= |before|
      ensures forall i :: 0 <= i < |places| ==> trace[..places[i]] == before[..places[i]]
    {
    }

    /** One turn of the main loop: the stop tests, then an attempt whose events go on record. */
    method Turn(taskId: string, since: int, ghost start: int, deadline: int) returns (r: Ending)
      requires Underway(Retry, taskId, since, start, deadline)
      modifies this
      ensures Underway(r, taskId, since, start, deadline)
      ensures |rounds| <= |old(rounds)| + 1 && (r.Retry? ==> |rounds| == |old(rounds)| + 1)
    {
      hide Budgeted, OnTime, NoFatal, EndsAtFatal, Justified, EndsWithItsMarker, IsFinalMarker, HandedOn, Verdict;
      var attempt := |rounds|;
      r := Pause(attempt, taskId, since, start, deadline);
      if r.Retry? {
        var handed, detoured;
        r, handed, detoured := Attempt(attempt + 1, taskId, since, start, deadline);
        rounds, detours, marks := rounds + [handed], detours + [detoured], marks + [|trace|];
      }
      MarkedPartsStay(old(trace), old(marks));
      assert trace[..|trace|] == trace;
    }

    /**
     * The main loop. A round that settles does so with the evidence of its last
     * step; the only way never to settle is an active replay that stays silent.
     */
    method Run(taskId: string, appliedSeq: Option<int>) returns (r: Ending, ghost start: int)
      requires trace == [] && rounds == [] && detours == [] && marks == []
      modifies this
      ensures r.Settle? || (r.Suspended? && rounds != [] && env.replay(|rounds| - 1).ending.Hang?)
      ensures |rounds| <= Max(maxAttempts, 0)
      ensures Budgeted(trace, taskId, OrElse(appliedSeq, 0), 3 * |rounds| + 3)
      ensures OnTime(trace, backoffCaps, start, start + totalBudgetMs, now)
      ensures EndsAtFatal(trace)
      ensures r.Settle? ==> Justified(r.outcome, trace)
      ensures Faithful()
      ensures r.Settle? && r.outcome.TerminalSeen? ==> rounds != [] && EndsWithItsMarker(r, rounds[|rounds| - 1])
      ensures r == Settle(Resumed) ==> rounds != [] && !detours[|rounds| - 1] && rounds[|rounds| - 1] == env.replay(|rounds| - 1).events
      ensures EveryFailureIsTriedAgain(r, start + totalBudgetMs)
    {
      hide Budgeted, OnTime, NoFatal, EndsAtFatal, Justified, EndsWithItsMarker, IsFinalMarker, Verdict;
      var since := OrElse(appliedSeq, 0);
      now, readings := now + env.drift(readings), readings + 1;
      start := now;
      var deadline := now + totalBudgetMs;
      NothingDoneYet(taskId, since, backoffCaps, start, deadline);
      r := Retry;
      while r.Retry?
        invariant Underway(r, taskId, since, start, deadline)
        decreases if r.Retry? then 1 + Max(maxAttempts, 0) - |rounds| else 0
      {
        r := Turn(taskId, since, start, deadline);
      }
    }

    /** What happens between two attempts: the stop tests, and from the second attempt on a sleep. */
    method Pause(attempt: nat, taskId: string, ghost since: int, ghost start: int, deadline: int) returns (stop: Ending)
      requires Good(taskId, since, 3 * attempt + 3, start, deadline)
      modifies this`trace, this`now, this`readings, this`questions, this`sleeps
      ensures Good(taskId, since, 3 * attempt + 3, start, deadline)
      ensures stop in {Retry, Settle(CancelledRound), Settle(BudgetExhausted)}
      ensures EndsAtFatal(trace) && (stop.Settle? ==> Justified(stop.outcome, trace))
      ensures stop == Retry ==> attempt < maxAttempts
      ensures stop == Settle(CancelledRound) ==> WasCancelled()
      ensures stop == Settle(BudgetExhausted) ==> now >= deadline || attempt >= maxAttempts
      ensures old(trace) <= trace
    {
      hide Budgeted, OnTime;
      var cancelled := IsCancelled();
      if cancelled { return Settle(CancelledRound); }
      var t := Now(taskId, since, 3 * attempt + 3, start, deadline);
      if deadline - t <= 0 { return Settle(BudgetExhausted); }
      if attempt >= maxAttempts { return Settle(BudgetExhausted); }
      if attempt > 0 {
        Sleep(attempt, taskId, since, 3 * attempt + 3, start, deadline);
        cancelled := IsCancelled();
        if cancelled { return Settle(CancelledRound); }
        t := Now(taskId, since, 3 * attempt + 3, start, deadline);
        if deadline - t <= 0 { return Settle(BudgetExhausted); }
      }
      return Retry;
    }

    /** The jittered back-off before attempt `attempt` + 1, cut at the deadline. */
    method Sleep(attempt: nat, ghost taskId: string, ghost since: int, ghost limit: int, ghost start: int, deadline: int)
      requires Good(taskId, since, limit, start, deadline) && attempt > 0
      modifies this`trace, this`now, this`readings, this`sleeps
      ensures Good(taskId, since, limit, start, deadline)
      ensures old(trace) <= trace
    {
      var cap, jitter := CapFor(backoffCaps, attempt), env.jitter(sleeps);
      BackoffIsWithinCap(cap, jitter);
      var t := Now(taskId, since, limit, start, deadline);
      var ms := Min(Backoff(cap, jitter), Max(deadline - t, 0));
      ghost var before := trace;
      trace := trace + [Slept(attempt, ms, now)];
      assert trace[..|trace| - 1] == before;
      now, sleeps := now + ms, sleeps + 1;
    }
  }
}
