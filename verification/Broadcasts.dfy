/** What every run keeps of the shutdown broadcast and its three receivers. */
module Broadcasts {
  import opened Protocol
  import opened Session
  import opened Kernel

  function Restarts(turns: seq<Turn>): nat {
    if turns == [] then 0
    else Restarts(turns[..|turns| - 1]) + if turns[|turns| - 1].Restarted? then 1 else 0
  }

  /** The first `n` broadcasts all ask for a restart. */
  predicate AllRestarts(bus: seq<bool>, n: nat) {
    n <= |bus| && forall i :: 0 <= i < n ==> bus[i]
  }

  /** Why a receiver that took `seen` broadcasts may stop. */
  predicate StopFits(bus: seq<bool>, gone: bool, seen: nat, why: Received) {
    match why
    case Got(restart) => !restart && 1 <= seen <= |bus| && !bus[seen - 1]
    case Lagged => 1 <= seen < |bus|
    case SenderGone => gone
  }

  predicate ReceiverFits(bus: seq<bool>, gone: bool, life: Life, seen: nat) {
    match life
    case Alive => AllRestarts(bus, seen)
    case Stopped(why) => 1 <= seen && AllRestarts(bus, seen - 1) && StopFits(bus, gone, seen, why)
  }

  function ShellLife(pc: ShellPc): Life {
    if pc.Ended? then Stopped(pc.why) else Alive
  }

  /** The control task leaves only after broadcasting a shutdown without restart. */
  predicate ControlFits(s: State) {
    (s.control.Polling? ==> s.control.c.content.Interrupt?) &&
    (s.control.Answering? && s.control.c.content.Shutdown? ==>
       s.bus != [] && s.bus[|s.bus| - 1] == s.control.c.content.restart) &&
    (s.control.Closed? ==> s.bus != [] && !s.bus[|s.bus| - 1])
  }

  predicate BroadcastsFit(s: State) {
    && ControlFits(s)
    && ReceiverFits(s.bus, s.control.Closed?, ShellLife(s.shell.pc), s.shell.seen)
    && ReceiverFits(s.bus, s.control.Closed?, s.iopub.life, s.iopub.seen)
    && ReceiverFits(s.bus, s.control.Closed?, s.heartbeat.life, s.heartbeat.seen)
    && Restarts(s.log.turns) == s.shell.seen - (if s.shell.pc.Ended? then 1 else 0)
  }

  /** One receive on the channel. */
  lemma ReceiveKeeps(s: State, seen: nat)
    requires ReceiverFits(s.bus, s.control.Closed?, Alive, seen) && BusReady(s, seen)
    ensures ReceiverFits(s.bus, s.control.Closed?, LifeAfter(BusReceive(s, seen)), seen + 1)
  {
  }

  /** More broadcasts, or a control task that leaves, do not change what a receiver saw. */
  lemma LaterKeeps(bus: seq<bool>, gone: bool, later: seq<bool>, after: bool, life: Life, seen: nat)
    requires ReceiverFits(bus, gone, life, seen) && bus <= later && (gone ==> after)
    ensures ReceiverFits(later, after, life, seen)
  {
  }

  lemma RestartsPlus(turns: seq<Turn>, turn: Turn)
    ensures Restarts(turns + [turn]) == Restarts(turns) + if turn.Restarted? then 1 else 0
  {
    assert (turns + [turn])[..|turns|] == turns;
  }

  lemma NoticeIsReceive(s: State)
    requires ShellEnabled(s, Notice)
    ensures var t, received := ShellApply(s, Notice), BusReceive(s, s.shell.seen);
            ShellLife(t.shell.pc) == LifeAfter(received) && t.shell.seen == s.shell.seen + 1 &&
            t.log.turns == s.log.turns + if received == Got(true) then [Restarted] else []
  {
  }

  lemma NoticeKeepsBroadcasts(s: State)
    requires BroadcastsFit(s) && ShellEnabled(s, Notice)
    ensures BroadcastsFit(ShellApply(s, Notice))
  {
    NoticeIsReceive(s);
    ReceiveKeeps(s, s.shell.seen);
    RestartsPlus(s.log.turns, Restarted);
  }

  lemma OfferKeepsBroadcasts(s: State)
    requires BroadcastsFit(s) && ShellEnabled(s, Offer)
    requires s.shell.pc.next.ToListen? ==> !s.log.turn.Restarted?
    ensures BroadcastsFit(ShellApply(s, Offer))
  {
    RestartsPlus(s.log.turns, s.log.turn);
  }

  lemma ShellKeepsBroadcasts(s: State, step: ShellStep)
    requires BroadcastsFit(s) && ShellEnabled(s, step)
    requires s.shell.pc.Sending? && s.shell.pc.next.ToListen? ==> !s.log.turn.Restarted?
    ensures BroadcastsFit(ShellApply(s, step))
  {
    match step
    case Notice => NoticeKeepsBroadcasts(s);
    case Offer => OfferKeepsBroadcasts(s);
    case _ =>
  }

  lemma ControlKeepsBroadcasts(s: State, step: ControlStep)
    requires BroadcastsFit(s) && ControlEnabled(s, step)
    ensures BroadcastsFit(ControlApply(s, step))
  {
    var t := ControlApply(s, step);
    assert s.bus <= t.bus && (s.control.Closed? ==> t.control.Closed?);
    LaterKeeps(s.bus, s.control.Closed?, t.bus, t.control.Closed?, ShellLife(s.shell.pc), s.shell.seen);
    LaterKeeps(s.bus, s.control.Closed?, t.bus, t.control.Closed?, s.iopub.life, s.iopub.seen);
    LaterKeeps(s.bus, s.control.Closed?, t.bus, t.control.Closed?, s.heartbeat.life, s.heartbeat.seen);
  }

  lemma IopubKeepsBroadcasts(s: State, step: IopubStep)
    requires BroadcastsFit(s) && IopubEnabled(s, step)
    ensures BroadcastsFit(IopubApply(s, step))
  {
    if step.IopubNotice? {
      ReceiveKeeps(s, s.iopub.seen);
    }
  }

  lemma HeartbeatKeepsBroadcasts(s: State, step: HeartbeatStep)
    requires BroadcastsFit(s) && HeartbeatEnabled(s, step)
    ensures BroadcastsFit(HeartbeatApply(s, step))
  {
    if step.HeartbeatNotice? {
      ReceiveKeeps(s, s.heartbeat.seen);
    }
  }

  /** What the three receivers and control know of the broadcasts. */
  predicate SameReceivers(s: State, t: State) {
    t.bus == s.bus && t.control == s.control && t.shell == s.shell && t.iopub == s.iopub &&
    t.heartbeat == s.heartbeat && t.log.turns == s.log.turns
  }

  lemma SameReceiversFit(s: State, t: State)
    requires BroadcastsFit(s) && SameReceivers(s, t)
    ensures BroadcastsFit(t)
  {
  }

  lemma EnvironmentOnReceivers(s: State, step: Step)
    requires Enabled(s, step) && (step.ReaderDo? || step.Write? || step.Tick?)
    ensures SameReceivers(s, Apply(s, step))
  {
  }

  /** Every step of every task keeps what is known of the broadcasts. */
  lemma StepKeepsBroadcasts(s: State, step: Step)
    requires BroadcastsFit(s) && Enabled(s, step)
    requires s.shell.pc.Sending? && s.shell.pc.next.ToListen? ==> !s.log.turn.Restarted?
    ensures BroadcastsFit(Apply(s, step))
  {
    match step
    case ShellDo(a) => ShellKeepsBroadcasts(s, a);
    case ControlDo(a) => ControlKeepsBroadcasts(s, a);
    case IopubDo(a) => IopubKeepsBroadcasts(s, a);
    case HeartbeatDo(a) => HeartbeatKeepsBroadcasts(s, a);
    case _ =>
      EnvironmentOnReceivers(s, step);
      SameReceiversFit(s, Apply(s, step));
  }
}
