/** What keeps the kernel moving: blocked producers are let go, and an evaluated cell is answered
    within a bounded number of steps of the shell. */
module Progress {
  import opened Protocol
  import opened Session
  import opened Kernel
  import opened Refinement
  import Runs

  /** A stretch of a run: any states that follow one another by enabled steps. */
  ghost predicate IsStretch(states: seq<State>, steps: seq<Step>) {
    |states| == |steps| + 1 &&
    forall i :: 0 <= i < |steps| ==> Enabled(states[i], steps[i]) && states[i + 1] == Apply(states[i], steps[i])
  }

  lemma Shorter(states: seq<State>, steps: seq<Step>)
    requires IsStretch(states, steps) && steps != []
    ensures var n := |steps| - 1;
            && IsStretch(states[..n + 1], steps[..n])
            && Enabled(states[n], steps[n]) && states[n + 1] == Apply(states[n], steps[n])
            && states[..n + 1][0] == states[0] && states[..n + 1][n] == states[n]
            && (forall i :: 0 <= i < n ==> steps[..n][i] == steps[i] && states[..n + 1][i] == states[i])
  {
  }

  // ----- the iopub task drains the queue -----

  /** Steps the iopub task takes, at most, before the queue is empty or a broadcast ends its loop. */
  function DrainRank(s: State): nat {
    2 * |s.queue| + (if s.iopub.hand.Some? then 1 else 0) +
    (if s.iopub.seen < |s.bus| then |s.bus| - s.iopub.seen else 0) +
    (if s.iopub.life.Alive? then 1 else 0)
  }

  /** A producer that cannot offer is waiting for a step that the iopub task can take. */
  lemma BlockedMeansDraining(s: State)
    requires !s.crashed && !CanOffer(s)
    ensures s.iopub.life.Alive? &&
            exists a :: IopubEnabled(s, a) && Enabled(s, IopubDo(a))
  {
    if s.iopub.hand.Some? {
      assert Enabled(s, IopubDo(Put));
    } else if BusReady(s, s.iopub.seen) {
      assert Enabled(s, IopubDo(IopubNotice));
    } else {
      assert Enabled(s, IopubDo(Take));
    }
  }

  /** Every step of the iopub task brings it closer to an empty queue, and nothing is dropped. */
  lemma DrainingEnds(s: State, a: IopubStep)
    requires IopubEnabled(s, a)
    ensures DrainRank(IopubApply(s, a)) < DrainRank(s)
    ensures Pipeline(IopubApply(s, a)) == Pipeline(s)
  {
    IopubKeepsPipeline(s, a);
  }

  /** A producer hands over a message, or a shutdown is broadcast. */
  predicate Supplies(step: Step) {
    || step == ShellDo(Offer)
    || (step.ReaderDo? && step.reader.Post?)
    || (step.ControlDo? && step.control.ReceiveControl? && step.control.c.content.Shutdown?)
  }

  lemma OthersKeepRank(s: State, step: Step)
    requires Enabled(s, step) && !step.IopubDo? && !Supplies(step)
    ensures DrainRank(Apply(s, step)) == DrainRank(s)
  {
  }

  function IopubSteps(steps: seq<Step>): nat {
    if steps == [] then 0
    else IopubSteps(steps[..|steps| - 1]) + if steps[|steps| - 1].IopubDo? then 1 else 0
  }

  /** While nothing new is supplied, the iopub task takes at most its rank of steps, in every interleaving,
      and at the latest before the last of them every producer can hand over, also if the task goes on. */
  lemma {:induction false} QueueDrains(states: seq<State>, steps: seq<Step>)
    requires IsStretch(states, steps) && forall i :: 0 <= i < |steps| ==> !Supplies(steps[i])
    ensures IopubSteps(steps) + DrainRank(states[|steps|]) <= DrainRank(states[0])
    ensures IopubSteps(steps) + 1 >= DrainRank(states[0]) ==> CanOffer(states[|steps|])
  {
    if steps != [] {
      var n := |steps| - 1;
      Shorter(states, steps);
      QueueDrains(states[..n + 1], steps[..n]);
      match steps[n]
      case IopubDo(a) => DrainingEnds(states[n], a);
      case _ => OthersKeepRank(states[n], steps[n]);
    }
  }

  // ----- the shell ends every turn -----

  /** The lazy part of a value neither prints nor displays. */
  predicate Harmless(lazy: seq<Effect>) {
    forall i :: 0 <= i < |lazy| ==> lazy[i].EnableExternal?
  }

  /** The turn is on its way to its end: a value without harm is rendered, or the evaluation is over. */
  predicate Ending(pc: ShellPc) {
    Concluded(pc) || (pc.Rendering? && Harmless(pc.lazy))
  }

  /** Steps of the shell left in its turn once the code has run. */
  function TurnRank(pc: ShellPc): nat {
    match pc
    case Rendering(_, _, _, _, lazy) => 5 + |lazy|
    case Sending(_, _, ToReply(_)) => 4
    case Replying(_, _) => 3
    case Resetting(_) => 2
    case Sending(_, _, ToListen) => 1
    case _ => 0
  }

  /** From there the shell only moves on: towards its result, its reply, its idle status, and the next request. */
  lemma EndingMovesOn(s: State, step: ShellStep)
    requires Ending(s.shell.pc) && ShellEnabled(s, step) && !ShellApply(s, step).crashed
    ensures var next := ShellApply(s, step).shell.pc;
            TurnRank(next) < TurnRank(s.shell.pc) && (Ending(next) || next.Listening?)
  {
  }

  /** No other task moves the shell. */
  lemma OthersLeaveShell(s: State, step: Step)
    requires Enabled(s, step) && !step.ShellDo?
    ensures Apply(s, step).shell == s.shell
  {
  }

  /** Inside a turn the shell can step exactly unless the value that it renders asks for the filter's lock,
      or a message waits for the queue. */
  lemma ShellStepsUnless(s: State)
    requires !s.crashed && IsBusy(s.shell.pc)
    ensures (exists a :: ShellEnabled(s, a)) <==> !Hangs(s.shell.pc) && (s.shell.pc.Sending? ==> CanOffer(s))
  {
    match s.shell.pc
    case Sending(_, _, _) => assert CanOffer(s) ==> ShellEnabled(s, Offer);
    case Dispatching(_) => assert ShellEnabled(s, Dispatch);
    case UpdatingOut(_) => assert ShellEnabled(s, UpdateReply);
    case UpdatingErr(_) => assert ShellEnabled(s, UpdateReply);
    case Parsing(_) => assert ShellEnabled(s, Merge([]));
    case Evaluating(_) => assert ShellEnabled(s, Finish(Nothing));
    case Rendering(_, _, _, _, lazy) =>
      assert lazy == [] ==> ShellEnabled(s, Show);
      assert lazy != [] && lazy[0].EnableExternal? ==> ShellEnabled(s, Unfold);
      assert lazy != [] && lazy[0].Print? ==> ShellEnabled(s, Crash);
    case Replying(_, _) => assert ShellEnabled(s, SendReply);
    case Resetting(_) => assert ShellEnabled(s, Reset);
  }

  /** Unless a lazy display holds it up, the shell is never stuck inside a turn: it can step, or the iopub
      task can step to let it. */
  lemma TurnsNeverStick(s: State)
    requires !s.crashed && IsBusy(s.shell.pc) && !Hangs(s.shell.pc)
    ensures exists step :: Enabled(s, step) && (step.ShellDo? || step.IopubDo?)
  {
    ShellStepsUnless(s);
    if a :| ShellEnabled(s, a) {
      assert Enabled(s, ShellDo(a));
    } else {
      BlockedMeansDraining(s);
    }
  }

  function ShellSteps(steps: seq<Step>): nat {
    if steps == [] then 0
    else ShellSteps(steps[..|steps| - 1]) + if steps[|steps| - 1].ShellDo? then 1 else 0
  }

  /** In every interleaving the shell takes at most four more steps between the end of an evaluation and the
      moment it listens again, or from the start of rendering a value five more than its lazy part has effects,
      if that part neither prints nor displays. */
  lemma {:induction false} TurnEndsWithinRank(states: seq<State>, steps: seq<Step>)
    requires IsStretch(states, steps) && Ending(states[0].shell.pc)
    requires forall i :: 0 <= i < |steps| ==> !states[i].shell.pc.Listening?
    requires forall i :: 0 <= i < |states| ==> !states[i].crashed
    ensures var pc := states[|steps|].shell.pc;
            (Ending(pc) || pc.Listening?) && !Hangs(pc) &&
            ShellSteps(steps) + TurnRank(pc) <= TurnRank(states[0].shell.pc)
    ensures Concluded(states[0].shell.pc) ==> TurnRank(states[0].shell.pc) <= 4
  {
    if steps != [] {
      var n := |steps| - 1;
      Shorter(states, steps);
      TurnEndsWithinRank(states[..n + 1], steps[..n]);
      RankStep(states[n], steps[n]);
    }
  }

  lemma RankStep(s: State, step: Step)
    requires Ending(s.shell.pc) && Enabled(s, step) && !Apply(s, step).crashed
    ensures var next := Apply(s, step).shell.pc;
            (Ending(next) || next.Listening?) &&
            TurnRank(next) + (if step.ShellDo? then 1 else 0) <= TurnRank(s.shell.pc)
  {
    match step
    case ShellDo(a) => EndingMovesOn(s, a);
    case _ => OthersLeaveShell(s, step);
  }

  // ----- an interrupt waits for the end of an execution -----

  lemma OnlyResetLowersFlag(s: State, step: Step)
    requires Enabled(s, step) && step != ShellDo(Reset) && s.control.Polling? && s.interrupt
    ensures Apply(s, step).control == s.control && Apply(s, step).interrupt
    ensures Apply(s, step).log.controlReplies == s.log.controlReplies
  {
    match step
    case ControlDo(a) => assert a == Poll;
    case _ =>
  }

  /** Once an interrupt raised the flag, the control task answers nothing at all, however long the run goes
      on and whether or not a cell is running, until an execution ends. */
  lemma {:induction false} InterruptWaits(states: seq<State>, steps: seq<Step>)
    requires IsStretch(states, steps) && states[0].control.Polling? && states[0].interrupt
    requires forall i :: 0 <= i < |steps| ==> steps[i] != ShellDo(Reset)
    ensures states[|steps|].control == states[0].control && states[|steps|].interrupt
    ensures states[|steps|].log.controlReplies == states[0].log.controlReplies
  {
    if steps != [] {
      var n := |steps| - 1;
      Shorter(states, steps);
      InterruptWaits(states[..n + 1], steps[..n]);
      OnlyResetLowersFlag(states[n], steps[n]);
    }
  }

  /** The end of an execution lets it go on: the next poll leaves the loop. */
  lemma ResetReleasesControl(s: State)
    requires Enabled(s, ShellDo(Reset)) && s.control.Polling?
    ensures var t := Apply(s, ShellDo(Reset));
            Enabled(t, ControlDo(Poll)) && Apply(t, ControlDo(Poll)).control == Answering(s.control.c)
  {
  }
}
