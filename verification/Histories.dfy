/** Every history of turns is that of some run: what the sequential reading says can happen does happen. */
module Histories {
  import opened Protocol
  import opened Session
  import opened Kernel
  import opened Runs
  import opened Refinement
  import History
  import Theorems

  /** The message type that announces each kind of request. */
  function TypeFor(content: ShellRequest): string {
    match content
    case KernelInfo => "kernel_info_request"
    case Execute(_) => "execute_request"
    case IsComplete(_) => "is_complete_request"
  }

  /** The turn is one that the shell takes: its request is of a type that the shell knows, with the content of
      that type, and is executed if it asks for that. */
  predicate Takes(turn: Turn) {
    turn.Restarted? ||
    (turn.m.header.msgType == TypeFor(turn.m.content) && (turn.Executed? <==> turn.m.content.Execute?))
  }

  predicate Quiet(t: StreamTask) {
    t.pc.Reading? && t.buf == [] && t.unread == []
  }

  /** Besides the shell, every task waits for something to do. */
  predicate Steady(s: State) {
    && !s.crashed && !s.interrupt && s.control.Waiting?
    && s.iopub == IopubTask(Alive, |s.bus|, None) && s.queue == []
    && s.heartbeat == HeartbeatTask(Alive, |s.bus|) && s.shell.seen == |s.bus|
    && Quiet(s.out) && Quiet(s.err)
  }

  predicate Ready(s: State) {
    Steady(s) && s.shell.pc.Listening?
  }

  /** What the current turn is about to be. */
  predicate SameTurn(s: State, t: State) {
    t.initial == s.initial && t.session == s.session && t.ctx == s.ctx &&
    t.log.names == s.log.names && t.log.effects == s.log.effects && t.log.turn == s.log.turn
  }

  function Onward(pc: ShellPc): ShellPc
    requires pc.Sending?
  {
    match pc.next
    case ToDispatch => Dispatching(pc.m)
    case ToEvaluate => Evaluating(pc.m)
    case ToReply(outcome) => Replying(pc.m, outcome)
    case ToListen => Listening
  }

  /** The waiting message goes through the queue to the socket. */
  lemma HandOver(s: State) returns (t: State)
    requires Reachable(s) && Steady(s) && s.shell.pc.Sending?
    ensures Reachable(t) && Steady(t) && SameTurn(s, t) && t.shell.pc == Onward(s.shell.pc)
    ensures t.log.turns == s.log.turns + if s.shell.pc.next.ToListen? then [s.log.turn] else []
  {
    var a := Follow(s, ShellDo(Offer));
    var b := Follow(a, IopubDo(Take));
    t := Follow(b, IopubDo(Put));
    assert s.log.turns + [] == s.log.turns;
  }

  lemma Arrive(s: State, m: Request) returns (t: State)
    requires Reachable(s) && Ready(s) && Parsed(m)
    ensures Reachable(t) && Steady(t) && SameTurn(s, t) && t.log.turns == s.log.turns && t.shell.pc == Dispatching(m)
  {
    var a := Follow(s, ShellDo(Receive(m)));
    t := HandOver(a);
  }

  lemma CompleteInformed(s: State) returns (t: State)
    requires Reachable(s) && Steady(s) && s.shell.pc.Replying? && s.shell.pc.outcome.Informed?
    ensures Reachable(t) && Ready(t) && t.initial == s.initial && t.session == s.session
    ensures t.log.turns == s.log.turns + [s.log.turn]
  {
    var a := Follow(s, ShellDo(SendReply));
    t := HandOver(a);
  }

  lemma ReplyAndReset(s: State) returns (t: State)
    requires Reachable(s) && Steady(s) && s.shell.pc.Replying? && !s.shell.pc.outcome.Informed?
    ensures Reachable(t) && Steady(t) && t.shell.pc.Sending? && t.shell.pc.next.ToListen?
    ensures t.initial == s.initial && t.session == s.session
    ensures t.log.turns == s.log.turns && t.log.turn == s.log.turn
  {
    var a := Follow(s, ShellDo(SendReply));
    t := Follow(a, ShellDo(Reset));
  }

  /** From a reply on, the turn that is on record is completed. */
  lemma Complete(s: State) returns (t: State)
    requires Reachable(s) && Steady(s) && s.shell.pc.Replying?
    ensures Reachable(t) && Ready(t) && t.initial == s.initial && t.session == s.session
    ensures t.log.turns == s.log.turns + [s.log.turn]
  {
    if s.shell.pc.outcome.Informed? {
      t := CompleteInformed(s);
    } else {
      var b := ReplyAndReset(s);
      t := HandOver(b);
    }
  }

  lemma TakeAnswered(s: State, m: Request) returns (t: State)
    requires Reachable(s) && Ready(s) && Parsed(m) && !m.content.Execute?
    ensures Reachable(t) && Ready(t) && t.initial == s.initial && t.session == s.session
    ensures t.log.turns == s.log.turns + [Answered(m)]
  {
    var a := Arrive(s, m);
    var b := Follow(a, ShellDo(Dispatch));
    t := Complete(b);
  }

  lemma StartCell(s: State, m: Request) returns (t: State)
    requires Reachable(s) && Ready(s) && Parsed(m) && m.content.Execute?
    ensures Reachable(t) && Steady(t) && t.initial == s.initial && t.session == s.session
    ensures t.log.turns == s.log.turns && t.shell.pc == Parsing(m) && t.ctx.konst.Some? && t.log.effects == []
    ensures t.log.executes != []
  {
    var a := Arrive(s, m);
    var b := Follow(a, ShellDo(Dispatch));
    var c := Follow(b, ShellDo(UpdateReply));
    t := Follow(c, ShellDo(UpdateReply));
  }

  lemma Perform1(s: State, effect: Effect) returns (t: State)
    requires Reachable(s) && Steady(s) && s.shell.pc.Evaluating? && s.ctx.konst.Some?
    ensures Reachable(t) && Steady(t) && t.initial == s.initial && t.session == s.session && t.shell.pc == s.shell.pc
    ensures t.ctx.konst.Some? && t.log.turns == s.log.turns
    ensures t.log.names == s.log.names && t.log.effects == s.log.effects + [effect]
  {
    t := Follow(s, ShellDo(Run(effect)));
    if effect.Print? {
      t := HandOver(t);
    }
  }

  lemma {:induction false} PerformAll(s: State, effects: seq<Effect>) returns (t: State)
    requires Reachable(s) && Steady(s) && s.shell.pc.Evaluating? && s.ctx.konst.Some?
    ensures Reachable(t) && Steady(t) && t.initial == s.initial && t.session == s.session && t.shell.pc == s.shell.pc
    ensures t.ctx.konst.Some? && t.log.turns == s.log.turns
    ensures t.log.names == s.log.names && t.log.effects == s.log.effects + effects
    decreases |effects|
  {
    if effects == [] {
      t := s;
      assert s.log.effects + [] == s.log.effects;
    } else {
      var u := Perform1(s, effects[0]);
      t := PerformAll(u, effects[1..]);
      assert s.log.effects + [effects[0]] + effects[1..] == s.log.effects + effects;
    }
  }

  /** The turn of the cell that has run so far, should it end with this result. */
  function EndingWith(s: State, result: Result): Turn
    requires s.shell.pc.Evaluating?
  {
    Executed(s.shell.pc.m, Ran(s.log.names, s.log.effects, result))
  }

  lemma EndWithValue(s: State, v: string) returns (t: State)
    requires Reachable(s) && Steady(s) && s.shell.pc.Evaluating?
    ensures Reachable(t) && Steady(t) && t.initial == s.initial && t.session == s.session && t.shell.pc.Replying?
    ensures t.log.turns == s.log.turns && t.log.turn == EndingWith(s, Value(v))
  {
    var a := Follow(s, ShellDo(Render(v, [])));
    var b := Follow(a, ShellDo(Show));
    t := HandOver(b);
  }

  lemma EndWithFailure(s: State, error: string) returns (t: State)
    requires Reachable(s) && Steady(s) && s.shell.pc.Evaluating?
    ensures Reachable(t) && Steady(t) && t.initial == s.initial && t.session == s.session && t.shell.pc.Replying?
    ensures t.log.turns == s.log.turns && t.log.turn == EndingWith(s, Failed(error))
  {
    var a := Follow(s, ShellDo(Finish(Failed(error))));
    t := HandOver(a);
  }

  /** The end of an evaluation puts the turn on record, and leads to its reply. */
  lemma EndWith(s: State, result: Result) returns (t: State)
    requires Reachable(s) && Steady(s) && s.shell.pc.Evaluating?
    ensures Reachable(t) && Steady(t) && t.initial == s.initial && t.session == s.session && t.shell.pc.Replying?
    ensures t.log.turns == s.log.turns && t.log.turn == EndingWith(s, result)
  {
    match result
    case Value(v) => t := EndWithValue(s, v);
    case Nothing => t := Follow(s, ShellDo(Finish(Nothing)));
    case Failed(error) => t := EndWithFailure(s, error);
  }

  lemma TakeRejected(s: State, m: Request, error: string) returns (t: State)
    requires Reachable(s) && Ready(s) && Parsed(m) && m.content.Execute?
    ensures Reachable(t) && Ready(t) && t.initial == s.initial && t.session == s.session
    ensures t.log.turns == s.log.turns + [Executed(m, Rejected(error))]
  {
    var a := StartCell(s, m);
    var b := Follow(a, ShellDo(Reject(error)));
    var c := HandOver(b);
    t := Complete(c);
  }

  lemma RunCode(s: State, m: Request, names: seq<string>, effects: seq<Effect>) returns (t: State)
    requires Reachable(s) && Ready(s) && Parsed(m) && m.content.Execute?
    ensures Reachable(t) && Steady(t) && t.initial == s.initial && t.session == s.session
    ensures t.shell.pc == Evaluating(m) && t.log.turns == s.log.turns
    ensures t.log.names == names && t.log.effects == effects
  {
    var a := StartCell(s, m);
    var b := Follow(a, ShellDo(Merge(names)));
    t := PerformAll(b, effects);
    assert [] + effects == effects;
  }

  lemma TakeExecuted(s: State, m: Request, ev: Evaluation) returns (t: State)
    requires Reachable(s) && Ready(s) && Parsed(m) && m.content.Execute?
    ensures Reachable(t) && Ready(t) && t.initial == s.initial && t.session == s.session
    ensures t.log.turns == s.log.turns + [Executed(m, ev)]
  {
    match ev
    case Rejected(error) => t := TakeRejected(s, m, error);
    case Ran(names, effects, result) =>
      var a := RunCode(s, m, names, effects);
      var b := EndWith(a, result);
      t := Complete(b);
  }

  /** Control broadcasts a restart, and all three loops receive it before the next. */
  lemma TakeRestart(s: State) returns (t: State)
    requires Reachable(s) && Ready(s)
    ensures Reachable(t) && Ready(t) && t.initial == s.initial && t.session == s.session
    ensures t.log.turns == s.log.turns + [Restarted]
  {
    var header := Header("", "", "", "", "shutdown_request", "5.4");
    var c: Control := Message([], header, None, EMPTY_METADATA, Shutdown(true), []);
    var a := Follow(s, ControlDo(ReceiveControl(c)));
    var b := Follow(a, ControlDo(AnswerControl));
    var d := Follow(b, IopubDo(IopubNotice));
    var e := Follow(d, HeartbeatDo(HeartbeatNotice));
    t := Follow(e, ShellDo(Notice));
  }

  lemma TakeTurn(s: State, turn: Turn) returns (t: State)
    requires Reachable(s) && Ready(s) && Takes(turn)
    ensures Reachable(t) && Ready(t) && t.initial == s.initial && t.session == s.session
    ensures t.log.turns == s.log.turns + [turn]
  {
    match turn
    case Executed(m, ev) => t := TakeExecuted(s, m, ev);
    case Answered(m) => t := TakeAnswered(s, m);
    case Restarted => t := TakeRestart(s);
  }

  lemma Started(initial: seq<Decl>, session: string, clock: string) returns (s: State)
    ensures Reachable(s) && Ready(s) && s == Start(initial, session, clock)
  {
    s := Start(initial, session, clock);
    assert IsRun([s], []) && [s][0] == s;
  }

  /** Every history of turns that the shell takes is reached, whatever it holds. */
  lemma {:induction false} EveryHistoryHappens(initial: seq<Decl>, session: string, clock: string, turns: seq<Turn>)
      returns (s: State)
    requires forall i :: 0 <= i < |turns| ==> Takes(turns[i])
    ensures Reachable(s) && Ready(s) && s.initial == initial && s.session == session && s.log.turns == turns
  {
    if turns == [] {
      s := Started(initial, session, clock);
    } else {
      var n := |turns| - 1;
      var before := EveryHistoryHappens(initial, session, clock, turns[..n]);
      s := TakeTurn(before, turns[n]);
      assert turns[..n] + [turns[n]] == turns;
    }
  }

  /** So the sequential history of any such turns is what some run publishes, replies and leaves behind. */
  lemma SequentialIsConcurrent(initial: seq<Decl>, session: string, clock: string, turns: seq<Turn>)
      returns (s: State)
    requires forall i :: 0 <= i < |turns| ==> Takes(turns[i])
    ensures Reachable(s) && !IsBusy(s.shell.pc) && s.log.turns == turns
    ensures s.ctx == After(initial, turns)
    ensures Bares(s.log.published) == Transcript(initial, turns)
    ensures Bared(s.log.replies) == Replies(initial, turns)
  {
    s := EveryHistoryHappens(initial, session, clock, turns);
    Theorems.ConcurrentIsSequential(s);
    assert Pipeline(s) == s.log.published;
  }

  // ----- what the sequential reading promises against, in runs -----

  /** A run in which a failing cell's filter is applied to the next cell's result. */
  lemma FilterLeakHappens(initial: seq<Decl>, session: string, clock: string, m: Request) returns (s: State)
    requires m.header.msgType == "execute_request" && m.content.Execute?
    ensures Reachable(s) && s.log.turns ==
              [Executed(m, Ran([], [Display("text/csv")], Failed("no"))), Executed(m, Ran([], [], Value("1")))]
    ensures Bare(m.zmqIdentities, Some(m.header), ExecuteResult(1, Rendered("1", Some("text/csv"))))
            in Bares(s.log.published)
  {
    var failing := Executed(m, Ran([], [Display("text/csv")], Failed("no")));
    var plain := Executed(m, Ran([], [], Value("1")));
    s := SequentialIsConcurrent(initial, session, clock, [failing, plain]);
    var base := Serve(Fresh(initial), failing, initial);
    LeakyOutputs(initial, m);
    assert [failing, plain] == [] + [failing] + [plain];
    History.AfterPlus(initial, [], failing);
    History.AfterPlus(initial, [failing], plain);
    assert [] + [failing] == [failing] && [failing] + [plain] == [failing, plain];
    assert Outputs(base, plain)[0] in Block(base, plain);
  }

  lemma LeakyOutputs(initial: seq<Decl>, m: Request)
    ensures var failing := Executed(m, Ran([], [Display("text/csv")], Failed("no")));
            Outputs(Serve(Fresh(initial), failing, initial), Executed(m, Ran([], [], Value("1"))))
            == [Answer(m, ExecuteResult(1, Rendered("1", Some("text/csv"))))]
  {
    var effects := [Display("text/csv")];
    assert effects[..0] == [];
    History.PlayFilter(Commit(Begin(Fresh(initial), m), []), effects);
  }

  function Enabling(m: Request): seq<Turn> {
    [Executed(m, Ran([], [EnableExternal], Nothing)), Executed(m, Ran([], [], Nothing)), Restarted]
  }

  lemma EnablingAdds(m: Request)
    ensures History.AddsExternal(Enabling(m), 1)
  {
    var turns := Enabling(m);
    assert History.Enables(turns[..1][0]);
    assert turns[..0] == [];
  }

  /** A run in which external commands were enabled and added, and a restart lost them. */
  lemma ExternalLossHappens(initial: seq<Decl>, session: string, clock: string, m: Request) returns (s: State)
    requires m.header.msgType == "execute_request" && m.content.Execute? && RunExternal !in initial
    ensures Reachable(s) && s.log.turns == Enabling(m)
    ensures s.ctx.external == AlreadyEnabled && RunExternal !in s.ctx.engine
  {
    EnablingAdds(m);
    History.ExternalLostByRestart(initial, Enabling(m), 1, 2);
    s := SequentialIsConcurrent(initial, session, clock, Enabling(m));
  }

  /** The kernel is started and its first cell runs. */
  lemma FirstCell(initial: seq<Decl>, session: string, clock: string, m: Request) returns (s: State)
    requires m.header.msgType == "execute_request" && m.content.Execute?
    ensures Reachable(s) && !s.crashed && s.shell.pc == Parsing(m) && s.log.executes == [m] && s.log.effects == []
    ensures s.out == FRESH_STREAM.(identities := m.zmqIdentities, parent := Some(m.header), cell := 1)
  {
    var start := Started(initial, session, clock);
    var a := Follow(start, ShellDo(Receive(m)));
    var b := Follow(a, ShellDo(Offer));
    var c := Follow(b, ShellDo(Dispatch));
    var d := Follow(c, ShellDo(UpdateReply));
    s := Follow(d, ShellDo(UpdateReply));
  }

  /** An interrupt of an idle kernel leaves its control task polling. */
  lemma IdleInterruptPolls(initial: seq<Decl>, session: string, clock: string, c: Control) returns (s: State)
    requires c.header.msgType == "interrupt_request" && c.content == Interrupt
    ensures Reachable(s) && !s.crashed && s.shell.pc.Listening? && s.log.accepted == []
    ensures s.control == Polling(c) && s.interrupt
  {
    var start := Started(initial, session, clock);
    s := Follow(start, ControlDo(ReceiveControl(c)));
  }
}
