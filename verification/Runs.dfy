/** The invariant of the whole step system, and what it says about every run. */
module Runs {
  import opened Protocol
  import opened Session
  import opened Kernel
  import opened Refinement
  import opened Streams
  import opened Interrupts
  import opened Broadcasts
  import opened Identifiers
  import opened Controls
  import opened Envelopes
  import History

  predicate Typed(replies: seq<Reply>, accepted: seq<Request>) {
    |replies| <= |accepted| &&
    forall i :: 0 <= i < |replies| ==> replies[i].header.msgType == TypeOfReply(accepted[i])
  }

  /** Replies were sent in request order, each with the type its request asks for. */
  predicate RepliesTyped(s: State) {
    |s.log.replies| + (if IsBusy(s.shell.pc) && !HasReplied(s.shell.pc) then 1 else 0) == |s.log.accepted| &&
    (IsBusy(s.shell.pc) ==> s.log.accepted != [] && s.log.accepted[|s.log.accepted| - 1] == s.shell.pc.m) &&
    (forall i :: 0 <= i < |s.log.accepted| ==> Parsed(s.log.accepted[i])) &&
    Typed(s.log.replies, s.log.accepted)
  }

  /** The execute requests among the turns, in order. */
  function ExecutesOf(turns: seq<Turn>): seq<Request> {
    if turns == [] then []
    else
      var last := turns[|turns| - 1];
      ExecutesOf(turns[..|turns| - 1]) + if last.Executed? then [last.m] else []
  }

  /** The request being served is an execute request that has begun. */
  predicate RunsCell(pc: ShellPc) {
    IsBusy(pc) && pc.m.content.Execute? && !pc.Dispatching? && !(pc.Sending? && pc.next.ToDispatch?)
  }

  /** Executions were begun for the executed turns, and for the current one. */
  predicate ExecutesOfTurns(s: State) {
    s.log.executes == ExecutesOf(s.log.turns) + if RunsCell(s.shell.pc) then [s.shell.pc.m] else []
  }

  predicate StreamsFit(s: State) {
    && Kept(s, Stdout) && Kept(s, Stderr)
    && Delivered(s, Stdout) && Delivered(s, Stderr)
    && ExecutesFit(s)
  }

  predicate TasksFit(s: State) {
    && InterruptsFit(s)
    && CompletedFit(s)
    && BroadcastsFit(s)
    && IdsFit(s)
    && RepliesTyped(s)
    && ExecutesOfTurns(s)
    && History.TurnsFit(s.log.turns)
  }

  predicate SocketsFit(s: State) {
    ControlsFit(s) && EnvelopesFit(s)
  }

  predicate Inv(s: State) {
    Refines(s) && StreamsFit(s) && TasksFit(s) && SocketsFit(s)
  }

  // ----- the invariant is inductive -----

  lemma TypedPlus(replies: seq<Reply>, accepted: seq<Request>, reply: Reply)
    requires Typed(replies, accepted) && |replies| < |accepted|
    requires reply.header.msgType == TypeOfReply(accepted[|replies|])
    ensures Typed(replies + [reply], accepted)
  {
  }

  lemma ReplyKeepsTyped(s: State)
    requires RepliesTyped(s) && ShellEnabled(s, SendReply)
    ensures RepliesTyped(Replied(s))
  {
    TypedPlus(s.log.replies, s.log.accepted, ReplyMessage(s));
  }

  lemma InnerKeepsTyped(s: State, step: ShellStep)
    requires RepliesTyped(s) && ShellEnabled(s, step) && Inner(step) && !step.SendReply?
    ensures RepliesTyped(InnerApply(s, step))
  {
  }

  /** The shell still owes a reply. */
  predicate Owes(pc: ShellPc) {
    IsBusy(pc) && !HasReplied(pc)
  }

  /** Nothing is accepted or replied, and the shell serves the same request as before or none. */
  predicate SameReplies(s: State, t: State) {
    t.log.accepted == s.log.accepted && t.log.replies == s.log.replies && Owes(t.shell.pc) == Owes(s.shell.pc) &&
    (IsBusy(t.shell.pc) ==> IsBusy(s.shell.pc) && t.shell.pc.m == s.shell.pc.m)
  }

  lemma SameRepliesTyped(s: State, t: State)
    requires RepliesTyped(s) && SameReplies(s, t)
    ensures RepliesTyped(t)
  {
  }

  lemma NoticeOnReplies(s: State)
    requires ShellEnabled(s, Notice)
    ensures SameReplies(s, Noticed(s))
  {
  }

  lemma OfferOnReplies(s: State)
    requires ShellEnabled(s, Offer)
    ensures SameReplies(s, Offered(s))
  {
  }

  lemma LaterStepsOnReplies(s: State, step: ShellStep)
    requires ShellEnabled(s, step) && (step.UpdateReply? || step.Crash? || step.Reset?)
    ensures SameReplies(s, ShellApply(s, step))
  {
  }

  lemma ShellKeepsTyped(s: State, step: ShellStep)
    requires RepliesTyped(s) && ShellEnabled(s, step)
    ensures RepliesTyped(ShellApply(s, step))
  {
    match step
    case SendReply => ReplyKeepsTyped(s);
    case Notice =>
      NoticeOnReplies(s);
      SameRepliesTyped(s, ShellApply(s, step));
    case Offer =>
      OfferOnReplies(s);
      SameRepliesTyped(s, ShellApply(s, step));
    case UpdateReply =>
      LaterStepsOnReplies(s, step);
      SameRepliesTyped(s, ShellApply(s, step));
    case Crash =>
      LaterStepsOnReplies(s, step);
      SameRepliesTyped(s, ShellApply(s, step));
    case Reset =>
      LaterStepsOnReplies(s, step);
      SameRepliesTyped(s, ShellApply(s, step));
    case _ => InnerKeepsTyped(s, step);
  }

  lemma ExecutesPlus(turns: seq<Turn>, turn: Turn)
    ensures ExecutesOf(turns + [turn]) == ExecutesOf(turns) + if turn.Executed? then [turn.m] else []
  {
    assert (turns + [turn])[..|turns|] == turns;
  }

  lemma LastOfferKeepsExecutes(s: State, base: Session)
    requires ExecutesOfTurns(s) && TurnFits(s, base) && ShellEnabled(s, Offer) && s.iopub.life.Alive?
    requires s.shell.pc.next.ToListen?
    ensures ExecutesOfTurns(Offered(s))
  {
    ExecutesPlus(s.log.turns, s.log.turn);
  }

  lemma MidTurnOfferRuns(s: State)
    requires ShellEnabled(s, Offer) && s.iopub.life.Alive? && !s.shell.pc.next.ToListen?
    ensures RunsCell(Offered(s).shell.pc) == RunsCell(s.shell.pc)
    ensures RunsCell(s.shell.pc) ==> Offered(s).shell.pc.m == s.shell.pc.m
    ensures Offered(s).log == s.log
  {
    assert s.log.turns + [] == s.log.turns;
  }

  lemma MidTurnOfferKeepsExecutes(s: State)
    requires ExecutesOfTurns(s) && ShellEnabled(s, Offer) && s.iopub.life.Alive? && !s.shell.pc.next.ToListen?
    ensures ExecutesOfTurns(Offered(s))
  {
    MidTurnOfferRuns(s);
  }

  lemma OfferKeepsExecutes(s: State, base: Session)
    requires ExecutesOfTurns(s) && TurnFits(s, base) && ShellEnabled(s, Offer)
    ensures ExecutesOfTurns(Offered(s))
  {
    if s.iopub.life.Stopped? {
      assert Offered(s) == s.(crashed := true);
    } else if s.shell.pc.next.ToListen? {
      LastOfferKeepsExecutes(s, base);
    } else {
      MidTurnOfferKeepsExecutes(s);
    }
  }

  lemma NoticeKeepsExecutes(s: State)
    requires ExecutesOfTurns(s) && ShellEnabled(s, Notice)
    ensures ExecutesOfTurns(Noticed(s))
  {
    ExecutesPlus(s.log.turns, Restarted);
  }

  lemma OtherStepKeepsExecutes(s: State, step: ShellStep)
    requires ExecutesOfTurns(s) && ShellEnabled(s, step) && !step.Offer? && !step.Notice?
    ensures ExecutesOfTurns(ShellApply(s, step))
  {
  }

  lemma StepKeepsExecutesOfTurns(s: State, step: Step, base: Session)
    requires ExecutesOfTurns(s) && TurnFits(s, base) && Enabled(s, step)
    ensures ExecutesOfTurns(Apply(s, step))
  {
    match step
    case ShellDo(a) =>
      match a {
        case Offer => OfferKeepsExecutes(s, base);
        case Notice => NoticeKeepsExecutes(s);
        case _ => OtherStepKeepsExecutes(s, a);
      }
    case _ => OthersOnExecutes(s, step);
  }

  lemma OthersOnExecutes(s: State, step: Step)
    requires Enabled(s, step) && !step.ShellDo?
    ensures var t := Apply(s, step);
            t.log.executes == s.log.executes && t.log.turns == s.log.turns && t.shell.pc == s.shell.pc
  {
  }

  lemma ShellKeepsTurnsFit(s: State, step: ShellStep, base: Session)
    requires History.TurnsFit(s.log.turns) && TurnFits(s, base) && ShellEnabled(s, step)
    ensures History.TurnsFit(ShellApply(s, step).log.turns)
  {
  }

  lemma OthersOnReplies(s: State, step: Step)
    requires Enabled(s, step) && !step.ShellDo?
    ensures SameReplies(s, Apply(s, step))
  {
  }

  lemma StepKeepsTyped(s: State, step: Step)
    requires RepliesTyped(s) && Enabled(s, step)
    ensures RepliesTyped(Apply(s, step))
  {
    match step
    case ShellDo(a) => ShellKeepsTyped(s, a);
    case _ =>
      OthersOnReplies(s, step);
      SameRepliesTyped(s, Apply(s, step));
  }

  lemma StepKeepsTurnsFit(s: State, step: Step, base: Session)
    requires History.TurnsFit(s.log.turns) && TurnFits(s, base) && Enabled(s, step)
    ensures History.TurnsFit(Apply(s, step).log.turns)
  {
    match step
    case ShellDo(a) => ShellKeepsTurnsFit(s, a, base);
    case _ =>
  }

  lemma StepKeepsExecutes(s: State, step: Step)
    requires ExecutesFit(s) && Enabled(s, step)
    ensures ExecutesFit(Apply(s, step))
  {
    match step
    case ShellDo(a) => ShellKeepsExecutes(s, a);
    case _ =>
  }

  lemma StepKeepsStreams(s: State, step: Step)
    requires StreamsFit(s) && Enabled(s, step)
    requires s.shell.pc.Sending? ==> !s.shell.pc.pub.content.Stream?
    ensures StreamsFit(Apply(s, step))
  {
    StepKeepsStream(s, step, Stdout);
    StepKeepsStream(s, step, Stderr);
    StepKeepsDelivered(s, step, Stdout);
    StepKeepsDelivered(s, step, Stderr);
    StepKeepsExecutes(s, step);
  }

  lemma StepKeepsTasks(s: State, step: Step, base: Session)
    requires TasksFit(s) && TurnFits(s, base) && Enabled(s, step)
    ensures TasksFit(Apply(s, step))
  {
    StepKeepsInterrupts(s, step);
    StepKeepsCompleted(s, step, base);
    StepKeepsBroadcasts(s, step);
    StepKeepsIds(s, step);
    StepKeepsTyped(s, step);
    StepKeepsTurnsFit(s, step, base);
    StepKeepsExecutesOfTurns(s, step, base);
  }

  lemma StepKeepsSockets(s: State, step: Step)
    requires SocketsFit(s) && Enabled(s, step)
    ensures SocketsFit(Apply(s, step))
  {
    StepKeepsControls(s, step);
    StepKeepsEnvelopes(s, step);
  }

  /** Every step of every task keeps the whole invariant. */
  lemma StepInv(s: State, step: Step)
    requires Inv(s) && Enabled(s, step)
    ensures Inv(Apply(s, step))
  {
    StepRefines(s, step);
    StepKeepsStreams(s, step);
    StepKeepsTasks(s, step, After(s.initial, s.log.turns));
    StepKeepsSockets(s, step);
  }

  lemma StartRefines(initial: seq<Decl>, session: string, clock: string)
    ensures Refines(Start(initial, session, clock))
  {
  }

  lemma StartStreamsFit(initial: seq<Decl>, session: string, clock: string)
    ensures StreamsFit(Start(initial, session, clock))
  {
  }

  lemma StartHandshake(initial: seq<Decl>, session: string, clock: string)
    ensures InterruptsFit(Start(initial, session, clock)) && CompletedFit(Start(initial, session, clock))
  {
  }

  lemma StartBroadcastsFit(initial: seq<Decl>, session: string, clock: string)
    ensures BroadcastsFit(Start(initial, session, clock))
  {
  }

  lemma StartIdsFit(initial: seq<Decl>, session: string, clock: string)
    ensures IdsFit(Start(initial, session, clock))
  {
    var s := Start(initial, session, clock);
    assert Pipeline(s) == [] && Names<Iopub>([]) == [];
  }

  lemma StartTasksFit(initial: seq<Decl>, session: string, clock: string)
    ensures TasksFit(Start(initial, session, clock))
  {
    StartHandshake(initial, session, clock);
    StartBroadcastsFit(initial, session, clock);
    StartIdsFit(initial, session, clock);
  }

  lemma StartInv(initial: seq<Decl>, session: string, clock: string)
    ensures Inv(Start(initial, session, clock))
  {
    StartRefines(initial, session, clock);
    StartStreamsFit(initial, session, clock);
    StartTasksFit(initial, session, clock);
    StartControlsFit(initial, session, clock);
    StartEnvelopesFit(initial, session, clock);
  }

  lemma {:induction false} RunInv(run: seq<State>, steps: seq<Step>, i: nat)
    requires IsRun(run, steps) && i <= |steps|
    ensures Inv(run[i])
  {
    if i == 0 {
      StartInv(run[0].initial, run[0].session, run[0].clock);
    } else {
      RunInv(run, steps, i - 1);
      StepInv(run[i - 1], steps[i - 1]);
    }
  }

  /** The invariant holds in every reachable state. */
  lemma Always(s: State)
    requires Reachable(s)
    ensures Inv(s)
  {
    var run, steps :| IsRun(run, steps) && run[|run| - 1] == s;
    RunInv(run, steps, |steps|);
  }

  lemma AlwaysRefines(s: State)
    requires Reachable(s)
    ensures Refines(s)
  {
    Always(s);
  }

  lemma AlwaysTyped(s: State)
    requires Reachable(s)
    ensures RepliesTyped(s) && History.TurnsFit(s.log.turns)
  {
    Always(s);
  }

  lemma AlwaysExecutes(s: State)
    requires Reachable(s)
    ensures ExecutesOfTurns(s) && ExecutesFit(s)
  {
    Always(s);
  }

  lemma AlwaysKept(s: State, name: StreamName)
    requires Reachable(s)
    ensures Kept(s, name) && Delivered(s, name)
  {
    Always(s);
  }

  lemma AlwaysHandshake(s: State)
    requires Reachable(s)
    ensures InterruptsFit(s) && CompletedFit(s)
  {
    Always(s);
  }

  lemma AlwaysBroadcasts(s: State)
    requires Reachable(s)
    ensures BroadcastsFit(s)
  {
    Always(s);
  }

  lemma AlwaysIds(s: State)
    requires Reachable(s)
    ensures IdsFit(s)
  {
    Always(s);
  }

  lemma AlwaysControls(s: State)
    requires Reachable(s)
    ensures ControlsFit(s)
  {
    Always(s);
  }

  lemma AlwaysEnvelopes(s: State)
    requires Reachable(s)
    ensures EnvelopesFit(s)
  {
    Always(s);
  }

  // ----- making runs longer -----

  /** Whatever is enabled in a reachable state leads to a reachable state. */
  lemma ReachableStep(s: State, step: Step)
    requires Reachable(s) && Enabled(s, step)
    ensures Reachable(Apply(s, step))
  {
    var run, steps :| IsRun(run, steps) && run[|run| - 1] == s;
    var t := Apply(s, step);
    Longer(run, steps, step);
    assert (run + [t])[|run + [t]| - 1] == t;
  }

  lemma Longer(run: seq<State>, steps: seq<Step>, step: Step)
    requires IsRun(run, steps) && Enabled(run[|run| - 1], step)
    ensures IsRun(run + [Apply(run[|run| - 1], step)], steps + [step])
  {
  }

  /** One more step of a run. */
  lemma Follow(s: State, step: Step) returns (t: State)
    requires Reachable(s) && Enabled(s, step)
    ensures Reachable(t) && t == Apply(s, step)
  {
    ReachableStep(s, step);
    t := Apply(s, step);
  }
}
