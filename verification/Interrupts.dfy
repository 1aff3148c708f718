/** What every run keeps of the interrupt handshake between control task and shell. */
module Interrupts {
  import opened Protocol
  import opened Session
  import opened Kernel
  import Refinement

  function CountInterrupts(replies: seq<ControlAnswer>): nat {
    if replies == [] then 0
    else
      CountInterrupts(replies[..|replies| - 1]) +
      if replies[|replies| - 1].content.InterruptReply? then 1 else 0
  }

  /** Control took an interrupt request and has not answered it yet. */
  predicate Pending(control: ControlPc) {
    (control.Polling? || control.Answering?) && control.c.content.Interrupt?
  }

  function One(b: bool): nat {
    if b then 1 else 0
  }

  /** Interrupt i set the flag after `stores[i]` executions; the end of execution `clears[i]` cleared it. */
  predicate Handshake(stores: seq<nat>, clears: seq<nat>, completed: nat) {
    |clears| <= |stores| <= |clears| + 1 &&
    (forall i :: 0 <= i < |stores| ==> stores[i] <= completed) &&
    (forall i :: 0 <= i < |clears| ==> stores[i] <= clears[i] < completed) &&
    (forall i, j :: 0 <= i < j < |stores| ==> clears[i] < stores[j])
  }

  predicate InterruptsFit(s: State) {
    && (s.control.Polling? ==> s.control.c.content.Interrupt?)
    && (s.interrupt ==> s.control.Polling?)
    && |s.log.stores| == |s.log.clears| + One(s.interrupt)
    && |s.log.stores| == CountInterrupts(s.log.controlReplies) + One(Pending(s.control))
    && Handshake(s.log.stores, s.log.clears, s.log.completed)
  }

  lemma CountPlus(replies: seq<ControlAnswer>, reply: ControlAnswer)
    ensures CountInterrupts(replies + [reply]) == CountInterrupts(replies) + One(reply.content.InterruptReply?)
  {
    assert (replies + [reply])[..|replies|] == replies;
  }

  /** The end of an execution clears the flag of the one interrupt that waits. */
  lemma Clear(stores: seq<nat>, clears: seq<nat>, completed: nat, interrupt: bool)
    requires Handshake(stores, clears, completed) && |stores| == |clears| + One(interrupt)
    ensures Handshake(stores, clears + if interrupt then [completed] else [], completed + 1)
  {
  }

  lemma ControlKeepsInterrupts(s: State, step: ControlStep)
    requires InterruptsFit(s) && ControlEnabled(s, step)
    ensures InterruptsFit(ControlApply(s, step))
  {
    if step.AnswerControl? {
      var t := ControlApply(s, step);
      CountPlus(s.log.controlReplies, t.log.controlReplies[|s.log.controlReplies|]);
    }
  }

  lemma ShellKeepsInterrupts(s: State, step: ShellStep)
    requires InterruptsFit(s) && ShellEnabled(s, step)
    ensures InterruptsFit(ShellApply(s, step))
  {
    if step.Reset? {
      Clear(s.log.stores, s.log.clears, s.log.completed, s.interrupt);
    }
  }

  predicate SameHandshake(s: State, t: State) {
    t.control == s.control && t.interrupt == s.interrupt && t.log.stores == s.log.stores &&
    t.log.clears == s.log.clears && t.log.completed == s.log.completed &&
    t.log.controlReplies == s.log.controlReplies
  }

  lemma OthersOnInterrupts(s: State, step: Step)
    requires Enabled(s, step) && !step.ShellDo? && !step.ControlDo?
    ensures SameHandshake(s, Apply(s, step))
  {
  }

  /** Every step of every task keeps the handshake. */
  lemma StepKeepsInterrupts(s: State, step: Step)
    requires InterruptsFit(s) && Enabled(s, step)
    ensures InterruptsFit(Apply(s, step))
  {
    match step
    case ShellDo(a) => ShellKeepsInterrupts(s, a);
    case ControlDo(a) => ControlKeepsInterrupts(s, a);
    case _ => OthersOnInterrupts(s, step);
  }

  // ----- completed executions are turns -----

  function Executions(turns: seq<Turn>): nat {
    if turns == [] then 0
    else Executions(turns[..|turns| - 1]) + One(turns[|turns| - 1].Executed?)
  }

  /** Executions have ended exactly for the executed turns, and for the one that only owes its idle status. */
  predicate CompletedFit(s: State) {
    var pc := s.shell.pc;
    s.log.completed == Executions(s.log.turns) + One(pc.Sending? && pc.next.ToListen? && pc.m.content.Execute?)
  }

  lemma ExecutionsPlus(turns: seq<Turn>, turn: Turn)
    ensures Executions(turns + [turn]) == Executions(turns) + One(turn.Executed?)
  {
    assert (turns + [turn])[..|turns|] == turns;
  }

  lemma OfferKeepsCompleted(s: State, base: Session)
    requires CompletedFit(s) && Refinement.TurnFits(s, base) && ShellEnabled(s, Offer)
    ensures CompletedFit(ShellApply(s, Offer))
  {
    ExecutionsPlus(s.log.turns, s.log.turn);
  }

  lemma NoticeKeepsCompleted(s: State)
    requires CompletedFit(s) && ShellEnabled(s, Notice)
    ensures CompletedFit(ShellApply(s, Notice))
  {
    ExecutionsPlus(s.log.turns, Restarted);
  }

  lemma ReplyKeepsCompleted(s: State, base: Session)
    requires CompletedFit(s) && Refinement.TurnFits(s, base) && ShellEnabled(s, SendReply)
    ensures CompletedFit(ShellApply(s, SendReply))
  {
  }

  lemma ShellKeepsCompleted(s: State, step: ShellStep, base: Session)
    requires CompletedFit(s) && Refinement.TurnFits(s, base) && ShellEnabled(s, step)
    ensures CompletedFit(ShellApply(s, step))
  {
    match step
    case Offer => OfferKeepsCompleted(s, base);
    case Notice => NoticeKeepsCompleted(s);
    case SendReply => ReplyKeepsCompleted(s, base);
    case _ =>
  }

  lemma StepKeepsCompleted(s: State, step: Step, base: Session)
    requires CompletedFit(s) && Refinement.TurnFits(s, base) && Enabled(s, step)
    ensures CompletedFit(Apply(s, step))
  {
    match step
    case ShellDo(a) => ShellKeepsCompleted(s, a, base);
    case _ =>
  }
}
