/** Every run of the step system publishes, replies and changes the session exactly as the
    sequential history of its turns does. */
module Refinement {
  import opened Protocol
  import opened Session
  import opened Kernel
  import History

  /** The non-stream messages among `pubs`, without their headers. */
  function Bares(pubs: seq<Pub>): seq<Bare<Iopub>> {
    if pubs == [] then []
    else
      var last := pubs[|pubs| - 1];
      Bares(pubs[..|pubs| - 1]) + if last.content.Stream? then [] else [Strip(last)]
  }

  function Bared(replies: seq<Reply>): seq<Bare<ShellReply>> {
    seq(|replies|, i requires 0 <= i < |replies| => Strip(replies[i]))
  }

  /** What the completed turns amount to: the session they left, and what they said, answered and were asked. */
  datatype Past = Past(
    base: Session,
    said: seq<Bare<Iopub>>,
    answered: seq<Bare<ShellReply>>,
    asked: seq<Request>)

  function PastOf(initial: seq<Decl>, turns: seq<Turn>): Past {
    Past(After(initial, turns), Transcript(initial, turns), Replies(initial, turns), Requests(turns))
  }

  function PastPlus(past: Past, turn: Turn, initial: seq<Decl>): Past {
    Past(Serve(past.base, turn, initial),
         past.said + Block(past.base, turn),
         past.answered + ReplyTo(past.base, turn),
         past.asked + if turn.Restarted? then [] else [turn.m])
  }

  // ----- what the shell has done of its current turn, by program counter -----

  predicate IsBusy(pc: ShellPc) {
    !pc.Listening? && !pc.Ended?
  }

  /** The evaluation of the current turn is known. */
  predicate Concluded(pc: ShellPc) {
    pc.Replying? || pc.Resetting? || (pc.Sending? && (pc.next.ToReply? || pc.next.ToListen?))
  }

  predicate InEvaluation(pc: ShellPc) {
    pc.Evaluating? || (pc.Sending? && pc.next.ToEvaluate?)
  }

  predicate HasBegun(pc: ShellPc) {
    pc.UpdatingOut? || pc.UpdatingErr? || pc.Parsing?
  }

  predicate HasReplied(pc: ShellPc) {
    pc.Resetting? || (pc.Sending? && pc.next.ToListen?)
  }

  /** The session that the code of the current cell has led to. */
  function CodeSession(s: State, base: Session): Session
    requires IsBusy(s.shell.pc)
  {
    Play(Commit(Begin(base, s.shell.pc.m), s.log.names), s.log.effects)
  }

  /** The session as the current turn left it so far. */
  function CurrentSession(s: State, base: Session): Session {
    var pc := s.shell.pc;
    if HasBegun(pc) then Begin(base, pc.m)
    else if InEvaluation(pc) then CodeSession(s, base)
    else if pc.Rendering? then Conclude(CodeSession(s, base), Value(pc.value))
    else if Concluded(pc) then Serve(base, s.log.turn, s.initial)
    else base
  }

  /** The messages of the current turn so far, the one waiting for the queue included. */
  function CurrentOutputs(s: State, base: Session): seq<Bare<Iopub>> {
    var pc := s.shell.pc;
    if !IsBusy(pc) then []
    else if InEvaluation(pc) || pc.Rendering? then
      [StatusOf(pc.m, true)] + AllPrinted(Begin(base, pc.m).konst.value, s.log.effects)
    else if pc.Sending? && pc.next.ToListen? then Block(base, s.log.turn)
    else if Concluded(pc) then [StatusOf(pc.m, true)] + Outputs(base, s.log.turn)
    else [StatusOf(pc.m, true)]
  }

  function CurrentReply(s: State, base: Session): seq<Bare<ShellReply>> {
    if HasReplied(s.shell.pc) then ReplyTo(base, s.log.turn) else []
  }

  /** The message that waits for the queue. */
  function Held(pc: ShellPc): seq<Bare<Iopub>> {
    if pc.Sending? then [Strip(pc.pub)] else []
  }

  predicate OutcomeFits(base: Session, turn: Turn, outcome: Outcome) {
    match outcome
    case Informed => turn.Answered?
    case Erred(error) => turn.Executed? && ReplyContent(base, turn) == Some(ErrorReply(error, Some(base.cell.execution)))
    case Succeeded(count) => turn.Executed? && ReplyContent(base, turn) == Some(ExecuteReply(count))
  }

  /** The recorded turn is a turn of the current request, with the outcome the shell carries. */
  predicate TurnFits(s: State, base: Session) {
    var pc := s.shell.pc;
    Concluded(pc) ==>
      (if pc.m.content.Execute? then s.log.turn.Executed? else s.log.turn.Answered?) &&
      s.log.turn.m == pc.m &&
      (pc.Replying? ==> OutcomeFits(base, s.log.turn, pc.outcome)) &&
      (pc.Sending? && pc.next.ToReply? ==>
         !pc.next.outcome.Informed? && OutcomeFits(base, s.log.turn, pc.next.outcome)) &&
      (pc.Resetting? ==> pc.m.content.Execute?)
  }

  /** What the shell carries fits its program counter. */
  predicate PcFits(s: State, base: Session) {
    var pc := s.shell.pc;
    TurnFits(s, base) &&
    (pc.Sending? ==> !pc.pub.content.Stream?) &&
    (HasBegun(pc) || InEvaluation(pc) || pc.Rendering? ==> pc.m.content.Execute?) &&
    (pc.Rendering? ==> pc.count == base.cell.execution && pc.filter == CodeSession(s, base).filter) &&
    (HasBegun(pc) ==> s.log.effects == [])
  }

  predicate SessionFits(s: State, base: Session) {
    s.ctx == CurrentSession(s, base)
  }

  predicate RequestsFit(s: State, past: Past) {
    s.log.accepted == past.asked + if IsBusy(s.shell.pc) then [s.shell.pc.m] else []
  }

  predicate OutputsFit(s: State, past: Past) {
    Bares(Pipeline(s)) + Held(s.shell.pc) == past.said + CurrentOutputs(s, past.base)
  }

  predicate RepliesFit(s: State, past: Past) {
    Bared(s.log.replies) == past.answered + CurrentReply(s, past.base)
  }

  predicate StateFits(s: State, past: Past) {
    PcFits(s, past.base) && SessionFits(s, past.base) && RequestsFit(s, past)
  }

  predicate Fits(s: State, past: Past) {
    StateFits(s, past) && OutputsFit(s, past) && RepliesFit(s, past)
  }

  /** The step system is where the sequential history of its turns says. */
  predicate Refines(s: State) {
    Fits(s, PastOf(s.initial, s.log.turns))
  }

  // ----- small facts -----

  lemma BaresPlus(pubs: seq<Pub>, pub: Pub)
    ensures Bares(pubs + [pub]) == Bares(pubs) + if pub.content.Stream? then [] else [Strip(pub)]
  {
    assert (pubs + [pub])[..|pubs|] == pubs;
  }

  lemma SamePipeline(s: State, t: State)
    requires t.log.published == s.log.published && t.iopub.hand == s.iopub.hand && t.queue == s.queue
    ensures Pipeline(t) == Pipeline(s)
  {
  }

  lemma PipelineOffer(s: State, t: State, pub: Pub)
    requires t.log.published == s.log.published && t.iopub.hand == s.iopub.hand && t.queue == s.queue + [pub]
    ensures Pipeline(t) == Pipeline(s) + [pub]
    ensures Bares(Pipeline(t)) == Bares(Pipeline(s)) + if pub.content.Stream? then [] else [Strip(pub)]
  {
    assert Pipeline(t) == Pipeline(s) + [pub];
    BaresPlus(Pipeline(s), pub);
  }

  lemma PlayPlus(s: Session, effects: seq<Effect>, effect: Effect)
    ensures Play(s, effects + [effect]) == Perform(Play(s, effects), effect)
  {
    assert (effects + [effect])[..|effects|] == effects;
  }

  lemma PrintedPlus(konst: Konst, effects: seq<Effect>, effect: Effect)
    ensures AllPrinted(konst, effects + [effect]) == AllPrinted(konst, effects) + Printed(konst, effect)
  {
    assert (effects + [effect])[..|effects|] == effects;
  }

  /** What the iopub task moves stays in the pipeline, in order. */
  lemma IopubKeepsPipeline(s: State, step: IopubStep)
    requires IopubEnabled(s, step)
    ensures Pipeline(IopubApply(s, step)) == Pipeline(s)
  {
    if step.Take? {
      assert s.queue == [s.queue[0]] + s.queue[1..];
    }
  }

  /** A step that leaves the pipeline and adds to the current turn what it then holds. */
  lemma Holds(s: State, t: State, past: Past)
    requires OutputsFit(s, past) && !s.shell.pc.Sending?
    requires Pipeline(t) == Pipeline(s)
    requires CurrentOutputs(t, past.base) == CurrentOutputs(s, past.base) + Held(t.shell.pc)
    ensures OutputsFit(t, past)
  {
    var a, h := past.said, Held(t.shell.pc);
    assert Bares(Pipeline(s)) == Bares(Pipeline(s)) + [] == a + CurrentOutputs(s, past.base);
    assert a + (CurrentOutputs(s, past.base) + h) == (a + CurrentOutputs(s, past.base)) + h;
  }

  // ----- the shell's steps within a turn -----

  lemma ReceiveFits(s: State, m: Request, past: Past)
    requires Fits(s, past) && ShellEnabled(s, Receive(m))
    ensures Fits(ShellApply(s, Receive(m)), past)
  {
    Holds(s, ShellApply(s, Receive(m)), past);
  }

  lemma DispatchFits(s: State, past: Past)
    requires Fits(s, past) && ShellEnabled(s, Dispatch)
    ensures Fits(ShellApply(s, Dispatch), past)
  {
  }

  lemma UpdateFits(s: State, past: Past)
    requires Fits(s, past) && ShellEnabled(s, UpdateReply)
    ensures Fits(ShellApply(s, UpdateReply), past)
  {
  }

  lemma RejectFits(s: State, error: string, past: Past)
    requires Fits(s, past) && ShellEnabled(s, Reject(error))
    ensures Fits(ShellApply(s, Reject(error)), past)
  {
    Holds(s, ShellApply(s, Reject(error)), past);
  }

  lemma MergeFits(s: State, names: seq<string>, past: Past)
    requires Fits(s, past) && ShellEnabled(s, Merge(names))
    ensures Fits(ShellApply(s, Merge(names)), past)
  {
  }

  lemma RunStateFits(s: State, effect: Effect, past: Past)
    requires StateFits(s, past) && ShellEnabled(s, Run(effect))
    ensures StateFits(ShellApply(s, Run(effect)), past)
  {
    PlayPlus(Commit(Begin(past.base, s.shell.pc.m), s.log.names), s.log.effects, effect);
  }

  lemma BusyFirst(busy: Bare<Iopub>, outs: seq<Bare<Iopub>>, more: seq<Bare<Iopub>>)
    ensures [busy] + (outs + more) == [busy] + outs + more
  {
  }

  /** The message that waits after an effect is the one that it prints, if any. */
  lemma HeldIsPrinted(s: State, effect: Effect)
    requires ShellEnabled(s, Run(effect)) && s.ctx.konst.Some?
    ensures Held(Performed(s, effect).shell.pc) == Printed(s.ctx.konst.value, effect)
  {
  }

  lemma PerformedOutputs(s: State, effect: Effect, base: Session)
    requires ShellEnabled(s, Run(effect))
    ensures CurrentOutputs(s, base) ==
            [StatusOf(s.shell.pc.m, true)] + AllPrinted(Begin(base, s.shell.pc.m).konst.value, s.log.effects)
    ensures CurrentOutputs(Performed(s, effect), base) ==
            [StatusOf(s.shell.pc.m, true)] + AllPrinted(Begin(base, s.shell.pc.m).konst.value, s.log.effects + [effect])
  {
  }

  /** An effect adds to the turn's messages just the one that it prints, if any. */
  lemma RunAddsHeld(s: State, effect: Effect, base: Session)
    requires ShellEnabled(s, Run(effect)) && s.ctx.konst == Begin(base, s.shell.pc.m).konst
    ensures var t := Performed(s, effect);
            CurrentOutputs(t, base) == CurrentOutputs(s, base) + Held(t.shell.pc)
  {
    var konst := Begin(base, s.shell.pc.m).konst.value;
    HeldIsPrinted(s, effect);
    PerformedOutputs(s, effect, base);
    PrintedPlus(konst, s.log.effects, effect);
    BusyFirst(StatusOf(s.shell.pc.m, true), AllPrinted(konst, s.log.effects), Printed(konst, effect));
  }

  lemma RunOutputsFit(s: State, effect: Effect, past: Past)
    requires PcFits(s, past.base) && OutputsFit(s, past) && ShellEnabled(s, Run(effect))
    requires s.ctx.konst == Begin(past.base, s.shell.pc.m).konst
    ensures OutputsFit(ShellApply(s, Run(effect)), past)
  {
    RunAddsHeld(s, effect, past.base);
    SamePipeline(s, Performed(s, effect));
    Holds(s, ShellApply(s, Run(effect)), past);
  }

  lemma RunFits(s: State, effect: Effect, past: Past)
    requires Fits(s, past) && ShellEnabled(s, Run(effect))
    ensures Fits(ShellApply(s, Run(effect)), past)
  {
    RunStateFits(s, effect, past);
    RunOutputsFit(s, effect, past);
  }

  lemma FinishStateFits(s: State, result: Result, past: Past)
    requires StateFits(s, past) && ShellEnabled(s, Finish(result))
    ensures StateFits(ShellApply(s, Finish(result)), past)
  {
  }

  /** The end of an evaluation adds to the turn's messages just the one that it holds. */
  lemma FinishAddsHeld(s: State, result: Result, base: Session)
    requires s.shell.pc.Evaluating? && !result.Value? && PcFits(s, base) && SessionFits(s, base)
    ensures var t := Finished(s, result);
            CurrentOutputs(t, base) == CurrentOutputs(s, base) + Held(t.shell.pc)
  {
  }

  lemma FinishOutputsFit(s: State, result: Result, past: Past)
    requires StateFits(s, past) && OutputsFit(s, past) && ShellEnabled(s, Finish(result))
    ensures OutputsFit(ShellApply(s, Finish(result)), past)
  {
    FinishAddsHeld(s, result, past.base);
    SamePipeline(s, Finished(s, result));
    Holds(s, ShellApply(s, Finish(result)), past);
  }

  lemma FinishFits(s: State, result: Result, past: Past)
    requires Fits(s, past) && ShellEnabled(s, Finish(result))
    ensures Fits(ShellApply(s, Finish(result)), past)
  {
    FinishStateFits(s, result, past);
    FinishOutputsFit(s, result, past);
  }

  /** A step that leaves the queue, and the turn's messages as they are. */
  lemma SaysNothing(s: State, t: State, past: Past)
    requires OutputsFit(s, past) && !s.shell.pc.Sending? && !t.shell.pc.Sending? && Pipeline(t) == Pipeline(s)
    requires CurrentOutputs(t, past.base) == CurrentOutputs(s, past.base)
    ensures OutputsFit(t, past)
  {
  }

  lemma RenderFits(s: State, value: string, lazy: seq<Effect>, past: Past)
    requires Fits(s, past) && ShellEnabled(s, Render(value, lazy))
    ensures Fits(ShellApply(s, Render(value, lazy)), past)
  {
    var t := RenderBegun(s, value, lazy);
    SamePipeline(s, t);
    SaysNothing(s, t, past);
  }

  /** Enabling external commands does not matter to how a value concludes the cell. */
  lemma EnablingCommutes(s: Session, value: string)
    ensures Conclude(Perform(s, EnableExternal), Value(value)) == Perform(Conclude(s, Value(value)), EnableExternal)
  {
  }

  lemma UnfoldStateFits(s: State, past: Past)
    requires StateFits(s, past) && ShellEnabled(s, Unfold)
    ensures StateFits(Unfolded(s), past)
  {
    var code := Commit(Begin(past.base, s.shell.pc.m), s.log.names);
    PlayPlus(code, s.log.effects, EnableExternal);
    EnablingCommutes(Play(code, s.log.effects), s.shell.pc.value);
  }

  lemma UnfoldFits(s: State, past: Past)
    requires Fits(s, past) && ShellEnabled(s, Unfold)
    ensures Fits(ShellApply(s, Unfold), past)
  {
    var t, konst := Unfolded(s), Begin(past.base, s.shell.pc.m).konst.value;
    UnfoldStateFits(s, past);
    PrintedPlus(konst, s.log.effects, EnableExternal);
    assert AllPrinted(konst, s.log.effects) + [] == AllPrinted(konst, s.log.effects);
    SamePipeline(s, t);
    SaysNothing(s, t, past);
  }

  lemma ShowStateFits(s: State, past: Past)
    requires StateFits(s, past) && ShellEnabled(s, Show)
    ensures StateFits(Shown(s), past)
  {
  }

  /** Showing a value adds the execute result to the turn's messages. */
  lemma ShowAddsHeld(s: State, base: Session)
    requires s.shell.pc.Rendering? && PcFits(s, base)
    ensures var t := Shown(s);
            CurrentOutputs(t, base) == CurrentOutputs(s, base) + Held(t.shell.pc)
  {
    var m := s.shell.pc.m;
    BusyFirst(StatusOf(m, true), AllPrinted(Begin(base, m).konst.value, s.log.effects), Held(Shown(s).shell.pc));
  }

  lemma ShowFits(s: State, past: Past)
    requires Fits(s, past) && ShellEnabled(s, Show)
    ensures Fits(ShellApply(s, Show), past)
  {
    ShowStateFits(s, past);
    ShowAddsHeld(s, past.base);
    SamePipeline(s, Shown(s));
    Holds(s, Shown(s), past);
  }

  lemma BaredPlus(replies: seq<Reply>, reply: Reply)
    ensures Bared(replies + [reply]) == Bared(replies) + [Strip(reply)]
  {
  }

  lemma ReplyIsTheTurns(s: State, past: Past)
    requires StateFits(s, past) && s.shell.pc.Replying?
    ensures var Replying(m, outcome) := s.shell.pc;
            ReplyTo(past.base, s.log.turn) == [Answer(m, ReplyOf(s, m, outcome))]
  {
    History.CounterFollowsReplies(past.base, s.log.turn, s.initial);
  }

  lemma SendReplyStateFits(s: State, past: Past)
    requires StateFits(s, past) && ShellEnabled(s, SendReply)
    ensures StateFits(ShellApply(s, SendReply), past)
  {
  }

  lemma SendReplyRepliesFit(s: State, past: Past)
    requires StateFits(s, past) && RepliesFit(s, past) && ShellEnabled(s, SendReply)
    ensures RepliesFit(ShellApply(s, SendReply), past)
  {
    ReplyIsTheTurns(s, past);
    var Replying(m, outcome) := s.shell.pc;
    BaredPlus(s.log.replies, Mint(s, Answer(m, ReplyOf(s, m, outcome)), TypeOfReply(m)));
  }

  lemma SendReplyFits(s: State, past: Past)
    requires Fits(s, past) && ShellEnabled(s, SendReply)
    ensures Fits(ShellApply(s, SendReply), past)
  {
    SendReplyStateFits(s, past);
    SendReplyRepliesFit(s, past);
    Holds(s, ShellApply(s, SendReply), past);
  }

  lemma ResetFits(s: State, past: Past)
    requires Fits(s, past) && ShellEnabled(s, Reset)
    ensures Fits(ShellApply(s, Reset), past)
  {
    Holds(s, ShellApply(s, Reset), past);
  }

  // ----- the shell's steps that end a turn -----

  lemma MidTurnOfferStateFits(s: State, past: Past)
    requires StateFits(s, past) && ShellEnabled(s, Offer) && s.iopub.life.Alive? && !s.shell.pc.next.ToListen?
    ensures StateFits(Offered(s), past)
  {
  }

  lemma LastOfferStateFits(s: State, past: Past)
    requires StateFits(s, past) && ShellEnabled(s, Offer) && s.iopub.life.Alive? && s.shell.pc.next.ToListen?
    ensures StateFits(Offered(s), PastPlus(past, s.log.turn, s.initial))
  {
  }

  lemma OfferStateFits(s: State, past: Past)
    requires StateFits(s, past) && ShellEnabled(s, Offer) && s.iopub.life.Alive?
    ensures StateFits(ShellApply(s, Offer),
                      if s.shell.pc.next.ToListen? then PastPlus(past, s.log.turn, s.initial) else past)
  {
    if s.shell.pc.next.ToListen? {
      LastOfferStateFits(s, past);
    } else {
      MidTurnOfferStateFits(s, past);
    }
  }

  /** The held message is the last of the turn's messages so far; handing it over keeps them. */
  lemma HandsOver(s: State, t: State, past: Past, after: Past)
    requires OutputsFit(s, past) && s.shell.pc.Sending? && !s.shell.pc.pub.content.Stream?
    requires t.log.published == s.log.published && t.iopub.hand == s.iopub.hand
    requires t.queue == s.queue + [s.shell.pc.pub] && !t.shell.pc.Sending?
    requires after.said + CurrentOutputs(t, after.base) == past.said + CurrentOutputs(s, past.base)
    ensures OutputsFit(t, after)
  {
    PipelineOffer(s, t, s.shell.pc.pub);
    assert Bares(Pipeline(t)) + [] == Bares(Pipeline(t));
  }

  lemma OfferOutputsFit(s: State, past: Past)
    requires PcFits(s, past.base) && OutputsFit(s, past) && ShellEnabled(s, Offer) && s.iopub.life.Alive?
    ensures OutputsFit(ShellApply(s, Offer),
                       if s.shell.pc.next.ToListen? then PastPlus(past, s.log.turn, s.initial) else past)
  {
    var t := ShellApply(s, Offer);
    if s.shell.pc.next.ToListen? {
      assert CurrentOutputs(t, PastPlus(past, s.log.turn, s.initial).base) == [];
      HandsOver(s, t, past, PastPlus(past, s.log.turn, s.initial));
    } else {
      HandsOver(s, t, past, past);
    }
  }

  lemma OfferRepliesFit(s: State, past: Past)
    requires PcFits(s, past.base) && RepliesFit(s, past) && ShellEnabled(s, Offer) && s.iopub.life.Alive?
    ensures RepliesFit(ShellApply(s, Offer),
                       if s.shell.pc.next.ToListen? then PastPlus(past, s.log.turn, s.initial) else past)
  {
  }

  lemma OfferFits(s: State, past: Past)
    requires Fits(s, past) && ShellEnabled(s, Offer) && s.iopub.life.Alive?
    ensures Fits(ShellApply(s, Offer),
                 if s.shell.pc.next.ToListen? then PastPlus(past, s.log.turn, s.initial) else past)
  {
    OfferStateFits(s, past);
    OfferOutputsFit(s, past);
    OfferRepliesFit(s, past);
  }

  lemma NoticeFits(s: State, past: Past)
    requires Fits(s, past) && ShellEnabled(s, Notice)
    ensures var t := ShellApply(s, Notice);
            Fits(t, if t.shell.pc.Listening? then PastPlus(past, Restarted, s.initial) else past)
  {
  }

  // ----- every step -----

  lemma PastOfPlus(initial: seq<Decl>, turns: seq<Turn>, turn: Turn)
    ensures PastOf(initial, turns + [turn]) == PastPlus(PastOf(initial, turns), turn, initial)
  {
    History.AfterPlus(initial, turns, turn);
  }

  lemma NoticeRefines(s: State)
    requires Refines(s) && ShellEnabled(s, Notice)
    ensures Refines(ShellApply(s, Notice))
  {
    var t := ShellApply(s, Notice);
    NoticeFits(s, PastOf(s.initial, s.log.turns));
    if t.shell.pc.Listening? {
      assert t.initial == s.initial && t.log.turns == s.log.turns + [Restarted];
      PastOfPlus(s.initial, s.log.turns, Restarted);
    } else {
      assert t.initial == s.initial && t.log.turns == s.log.turns;
    }
  }

  lemma OfferRefines(s: State)
    requires Refines(s) && ShellEnabled(s, Offer)
    ensures Refines(ShellApply(s, Offer))
  {
    var t := ShellApply(s, Offer);
    if s.iopub.life.Stopped? {
      assert t == s.(crashed := true);
    } else if s.shell.pc.next.ToListen? {
      OfferFits(s, PastOf(s.initial, s.log.turns));
      PastOfPlus(s.initial, s.log.turns, s.log.turn);
    } else {
      OfferFits(s, PastOf(s.initial, s.log.turns));
      assert s.log.turns + [] == s.log.turns;
    }
  }

  /** The steps that stay within a turn. */
  lemma TurnStepRefines(s: State, step: ShellStep)
    requires Refines(s) && ShellEnabled(s, step) && !step.Notice? && !step.Offer?
    ensures Refines(ShellApply(s, step))
  {
    var past := PastOf(s.initial, s.log.turns);
    TurnStepFits(s, step, past);
    TurnStepKeepsTurns(s, step);
  }

  lemma TurnStepKeepsTurns(s: State, step: ShellStep)
    requires ShellEnabled(s, step) && !step.Notice? && !step.Offer?
    ensures ShellApply(s, step).initial == s.initial && ShellApply(s, step).log.turns == s.log.turns
  {
  }

  lemma CrashFits(s: State, past: Past)
    requires Fits(s, past) && ShellEnabled(s, Crash)
    ensures Fits(ShellApply(s, Crash), past)
  {
  }

  lemma TurnStepFits(s: State, step: ShellStep, past: Past)
    requires Fits(s, past) && ShellEnabled(s, step) && !step.Notice? && !step.Offer?
    ensures Fits(ShellApply(s, step), past)
  {
    match step
    case Receive(m) => ReceiveFits(s, m, past);
    case Dispatch => DispatchFits(s, past);
    case UpdateReply => UpdateFits(s, past);
    case Reject(error) => RejectFits(s, error, past);
    case Merge(names) => MergeFits(s, names, past);
    case Run(effect) => RunFits(s, effect, past);
    case Finish(result) => FinishFits(s, result, past);
    case Render(value, lazy) => RenderFits(s, value, lazy, past);
    case Unfold => UnfoldFits(s, past);
    case Show => ShowFits(s, past);
    case Crash => CrashFits(s, past);
    case SendReply => SendReplyFits(s, past);
    case Reset => ResetFits(s, past);
  }

  lemma ShellRefines(s: State, step: ShellStep)
    requires Refines(s) && ShellEnabled(s, step)
    ensures Refines(ShellApply(s, step))
  {
    match step
    case Notice => NoticeRefines(s);
    case Offer => OfferRefines(s);
    case _ => TurnStepRefines(s, step);
  }

  /** What the shell owns, and what left the queue towards the iopub socket. */
  predicate SameShell(s: State, t: State) {
    t.initial == s.initial && t.shell.pc == s.shell.pc && t.ctx == s.ctx &&
    t.log.accepted == s.log.accepted && t.log.replies == s.log.replies && t.log.turns == s.log.turns &&
    t.log.names == s.log.names && t.log.effects == s.log.effects && t.log.turn == s.log.turn
  }

  lemma OthersRefine(s: State, t: State)
    requires Refines(s) && SameShell(s, t) && Bares(Pipeline(t)) == Bares(Pipeline(s))
    ensures Refines(t)
  {
  }

  /** The readers only ever post stream messages. */
  predicate ReadersPostStreams(s: State) {
    (s.out.pc.Posting? ==> s.out.pc.pub.content.Stream?) &&
    (s.err.pc.Posting? ==> s.err.pc.pub.content.Stream?)
  }

  lemma ReaderKeepsBares(s: State, name: StreamName, step: ReaderStep)
    requires ReadersPostStreams(s) && ReaderEnabled(s, name, step)
    ensures var t := ReaderApply(s, name, step);
            SameShell(s, t) && Bares(Pipeline(t)) == Bares(Pipeline(s))
  {
    var t := ReaderApply(s, name, step);
    if step.Post? && s.iopub.life.Alive? {
      PipelineOffer(s, t, StreamOf(s, name).pc.pub);
    } else {
      assert Pipeline(t) == Pipeline(s);
    }
  }

  lemma ReaderRefines(s: State, name: StreamName, step: ReaderStep)
    requires Refines(s) && ReadersPostStreams(s) && ReaderEnabled(s, name, step)
    ensures Refines(ReaderApply(s, name, step))
  {
    ReaderKeepsBares(s, name, step);
    OthersRefine(s, ReaderApply(s, name, step));
  }

  lemma IopubRefines(s: State, step: IopubStep)
    requires Refines(s) && IopubEnabled(s, step)
    ensures Refines(IopubApply(s, step))
  {
    IopubKeepsPipeline(s, step);
    OthersRefine(s, IopubApply(s, step));
  }

  lemma ControlKeepsShell(s: State, step: ControlStep)
    requires ControlEnabled(s, step)
    ensures SameShell(s, ControlApply(s, step)) && Pipeline(ControlApply(s, step)) == Pipeline(s)
  {
  }

  lemma ControlRefines(s: State, step: ControlStep)
    requires Refines(s) && ControlEnabled(s, step)
    ensures Refines(ControlApply(s, step))
  {
    ControlKeepsShell(s, step);
    OthersRefine(s, ControlApply(s, step));
  }

  lemma EnvironmentKeepsShell(s: State, step: Step)
    requires Enabled(s, step) && (step.Write? || step.Tick? || step.HeartbeatDo?)
    ensures SameShell(s, Apply(s, step)) && Pipeline(Apply(s, step)) == Pipeline(s)
  {
  }

  lemma EnvironmentRefines(s: State, step: Step)
    requires Refines(s) && Enabled(s, step) && (step.Write? || step.Tick? || step.HeartbeatDo?)
    ensures Refines(Apply(s, step))
  {
    EnvironmentKeepsShell(s, step);
    OthersRefine(s, Apply(s, step));
  }

  /** Every step of every task keeps the refinement. */
  lemma StepRefines(s: State, step: Step)
    requires Refines(s) && ReadersPostStreams(s) && Enabled(s, step)
    ensures Refines(Apply(s, step))
  {
    match step
    case ShellDo(a) => ShellRefines(s, a);
    case IopubDo(a) => IopubRefines(s, a);
    case ControlDo(a) => ControlRefines(s, a);
    case ReaderDo(name, a) => ReaderRefines(s, name, a);
    case _ => EnvironmentRefines(s, step);
  }
}
