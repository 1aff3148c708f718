/** Which broadcasts a loop survives. */
module Shutdowns {
  import opened Protocol
  import opened Kernel
  import opened Broadcasts
  import opened Runs

  /** A receive keeps a loop going exactly when it finds one new broadcast, and that asks for a restart. */
  lemma LoopGoesOnIff(s: State)
    ensures Enabled(s, ShellDo(Notice)) ==>
              (Apply(s, ShellDo(Notice)).shell.pc.Listening? <==>
               |s.bus| == s.shell.seen + 1 && s.bus[s.shell.seen])
    ensures Enabled(s, IopubDo(IopubNotice)) ==>
              (Apply(s, IopubDo(IopubNotice)).iopub.life.Alive? <==>
               |s.bus| == s.iopub.seen + 1 && s.bus[s.iopub.seen])
    ensures Enabled(s, HeartbeatDo(HeartbeatNotice)) ==>
              (Apply(s, HeartbeatDo(HeartbeatNotice)).heartbeat.life.Alive? <==>
               |s.bus| == s.heartbeat.seen + 1 && s.bus[s.heartbeat.seen])
  {
  }

  /** As long as only restarts are broadcast, the shell survives its next receive exactly when it has missed none. */
  lemma RestartSurvivedIff(s: State)
    requires Reachable(s) && Enabled(s, ShellDo(Notice)) && forall i :: 0 <= i < |s.bus| ==> s.bus[i]
    ensures Apply(s, ShellDo(Notice)).shell.pc.Listening? <==> |s.bus| == s.shell.seen + 1
    ensures Apply(s, ShellDo(Notice)).shell.pc == Ended(Lagged) <==> |s.bus| > s.shell.seen + 1
  {
    AlwaysBroadcasts(s);
  }

  /** As long as only restarts are broadcast, a loop that stopped has missed one. */
  lemma RestartsEndByLag(s: State)
    requires Reachable(s) && forall i :: 0 <= i < |s.bus| ==> s.bus[i]
    ensures s.shell.pc.Ended? ==> s.shell.pc.why == Lagged
    ensures s.iopub.life.Stopped? ==> s.iopub.life.why == Lagged
    ensures s.heartbeat.life.Stopped? ==> s.heartbeat.life.why == Lagged
  {
    AlwaysBroadcasts(s);
  }

  /** Two restarts in quick succession end the shell of a kernel that has just started. */
  lemma TwoRestartsEndTheShell(initial: seq<Session.Decl>, session: string, clock: string, c: Control)
      returns (s: State)
    requires c.header.msgType == "shutdown_request" && c.content == Shutdown(true)
    ensures Reachable(s) && !s.crashed && s.bus == [true, true] && s.shell.pc == Ended(Lagged)
  {
    s := Start(initial, session, clock);
    assert IsRun([s], []) && [s][0] == s;
    s := Asked(s, c);
    s := Asked(s, c);
    ReachableStep(s, ShellDo(Notice));
    s := Apply(s, ShellDo(Notice));
  }

  /** Control takes a restart request and answers it. */
  lemma Asked(s: State, c: Control) returns (t: State)
    requires Reachable(s) && !s.crashed && s.control.Waiting? && ParsedControl(c) && c.content == Shutdown(true)
    ensures Reachable(t) && !t.crashed && t.control.Waiting? && t.bus == s.bus + [true] && t.shell == s.shell
  {
    ReachableStep(s, ControlDo(ReceiveControl(c)));
    var u := Apply(s, ControlDo(ReceiveControl(c)));
    ReachableStep(u, ControlDo(AnswerControl));
    t := Apply(u, ControlDo(AnswerControl));
  }
}
