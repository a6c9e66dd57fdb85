/** The run engine as the object it is (A2aRunEngine.ts), proved against RunState. */
module RunEngine {
  import opened Json
  import opened Translate
  import opened RunState
  import opened SendBan

  /** The rolling text that a request, its anchor and its recovery rounds share. */
  class RollingTextCell {
    var fullText: string

    constructor ()
      ensures fullText == ""
    {
      fullText := "";
    }
  }

  /** The chat SDK's parser, seen as the log of frames it was fed. */
  class SdkParser {
    var frames: seq<Frame>

    constructor ()
      ensures frames == []
    {
      frames := [];
    }

    method Reset()
      modifies this
      ensures frames == []
    {
      frames := [];
    }

    method HandleMessage(frame: Frame)
      modifies this
      ensures frames == old(frames) + [frame]
    {
      frames := frames + [frame];
    }
  }

  class RunOutcomeBag {
    var ctx: Context
    const state: RollingTextCell
    var outcome: Option<Outcome>
    var runFailure: Option<RunFailure>
    var terminalApplied: bool

    constructor (ctx: Context, state: RollingTextCell)
      ensures this.ctx == ctx && this.state == state
      ensures outcome == None && runFailure == None && !terminalApplied
    {
      this.ctx, this.state := ctx, state;
      outcome, runFailure, terminalApplied := None, None, false;
    }

    function View(): Bag<RollingTextCell> reads this {
      Bag(ctx, state, outcome, runFailure, terminalApplied)
    }
  }

  class A2aRunEngine {
    var appliedSeq: Option<int>
    var recoveryAnchor: Option<Anchor<RollingTextCell>>
    var runSettled: bool
    const parser: SdkParser
    const sendBan: SendBanRegistry
    const rpcUrl: string
    const scope: Option<string>

    constructor (parser: SdkParser, sendBan: SendBanRegistry, rpcUrl: string, scope: Option<string>)
      ensures this.parser == parser && this.sendBan == sendBan && this.rpcUrl == rpcUrl && this.scope == scope
      ensures Position() == Cursor(None, None, false)
    {
      this.parser, this.sendBan, this.rpcUrl, this.scope := parser, sendBan, rpcUrl, scope;
      appliedSeq, recoveryAnchor, runSettled := None, None, false;
    }

    function Position(): Cursor<RollingTextCell> reads this {
      Cursor(appliedSeq, recoveryAnchor, runSettled)
    }

    function View(bag: RunOutcomeBag): Run<RollingTextCell> reads this, bag, bag.state, parser {
      Run(Position(), bag.View(), bag.state.fullText, parser.frames)
    }

    /** The registry after an event that did or did not release the ban of a session. */
    ghost function BansAfter(before: map<string, BanKey>, lifted: bool, sessionKey: string): map<string, BanKey> {
      if lifted then map k | k in before && k != KeyOf(rpcUrl, ScopedContext(scope, sessionKey)) :: before[k] else before
    }

    method ReleaseBanOnNonCancelTerminal(contextId: string)
      requires sendBan.Valid()
      modifies sendBan
      ensures sendBan.Valid() && sendBan.banned == BansAfter(old(sendBan.banned), true, contextId)
    {
      sendBan.ReleaseOnTerminal(rpcUrl, ScopedContext(scope, contextId));
    }

    method ConsumeWireEvent(ev: WireEvent, bag: RunOutcomeBag) returns (verdict: Verdict)
      requires sendBan.Valid()
      modifies this, bag, bag.state, parser, sendBan
      ensures View(bag) == Consume(old(View(bag)), ev).run
      ensures verdict == Consume(old(View(bag)), ev).verdict
      ensures sendBan.Valid()
      ensures sendBan.banned == BansAfter(old(sendBan.banned), Consume(old(View(bag)), ev).lifted, old(bag.ctx.sessionKey))
    {
      hide TranslateEvent, RollingText, TaskIdOf, IsFinalMarker, TakeOutput, BansAfter;
      if bag.ctx.taskRunId.None? {
        var candidate := TaskIdOf(ev);
        if candidate != "" {
          bag.ctx := bag.ctx.(taskRunId := Some(candidate));
          recoveryAnchor := Some(Anchor(candidate, bag.ctx.sessionKey, bag.state));
        }
      }
      NothingLifted(sendBan.banned, bag.ctx.sessionKey);
      assert View(bag) == Named(old(View(bag)), ev);
      if !IsFinalMarker(ev) && ev.seqNo.Some? && appliedSeq.Some? && ev.seqNo.value <= appliedSeq.value {
        return Continue;
      }
      bag.state.fullText := RollingText(ev, bag.state.fullText);
      var translated := TranslateEvent(ev, bag.ctx, bag.state.fullText);
      if translated.None? {
        if ev.seqNo.Some? { appliedSeq := ev.seqNo; }
        return Continue;
      }
      verdict := FeedOutput(ev, translated.value, bag);
    }

    lemma NothingLifted(before: map<string, BanKey>, sessionKey: string)
      ensures BansAfter(before, false, sessionKey) == before
    {
    }

    /** Cursor, settled marks, parser, outcome and ban, in the order of the source. */
    method FeedOutput(ev: WireEvent, out: Output, bag: RunOutcomeBag) returns (verdict: Verdict)
      requires sendBan.Valid()
      modifies this, bag, parser, sendBan
      ensures View(bag) == TakeOutput(old(View(bag)), ev, out).run
      ensures verdict == TakeOutput(old(View(bag)), ev, out).verdict
      ensures sendBan.Valid()
      ensures sendBan.banned == BansAfter(old(sendBan.banned), TakeOutput(old(View(bag)), ev, out).lifted, old(bag.ctx.sessionKey))
    {
      hide StateOf, BuildRunFailure, BansAfter;
      NothingLifted(sendBan.banned, bag.ctx.sessionKey);
      if IsTerminal(out.kind) && bag.terminalApplied { return Continue; }
      if out.consumedSeq.Some? { appliedSeq := out.consumedSeq; }
      if IsTerminal(out.kind) { bag.terminalApplied, runSettled := true, true; }
      parser.HandleMessage(out.frame);
      if out.kind.Error? {
        bag.outcome, bag.runFailure := Some(Outcome.Failed), Some(BuildRunFailure(ev.metadata));
        ReleaseBanOnNonCancelTerminal(bag.ctx.sessionKey);
        return IsError;
      }
      if out.kind.Final? {
        var state := StateOf(ev.member);
        bag.outcome := Some(if state == CANCELED || state == REJECTED then Outcome.Cancelled else Outcome.Completed);
        if bag.outcome != Some(Outcome.Cancelled) { ReleaseBanOnNonCancelTerminal(bag.ctx.sessionKey); }
        return IsFinal;
      }
      return Continue;
    }

    method TakeRecoveredIncomplete(bag: RunOutcomeBag, state: Option<string>, latestText: Option<string>)
      requires sendBan.Valid()
      modifies this, bag, parser, sendBan
      ensures View(bag) == ApplyRecoveredIncomplete(old(View(bag)), state, latestText).run
      ensures sendBan.Valid()
      ensures sendBan.banned ==
        BansAfter(old(sendBan.banned), ApplyRecoveredIncomplete(old(View(bag)), state, latestText).lifted, old(bag.ctx.sessionKey))
    {
      if state != Some(COMPLETED) || bag.terminalApplied { return; }
      bag.terminalApplied, bag.outcome, runSettled := true, Some(Outcome.Completed), true;
      ReleaseBanOnNonCancelTerminal(bag.ctx.sessionKey);
      parser.HandleMessage(SynthesizedFinal(View(bag), OrElse(latestText, bag.state.fullText)));
    }
  }
}
