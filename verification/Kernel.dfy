/** The kernel's tasks as a step system: every interleaving of shell, control, iopub,
    heartbeat and the two stream readers is a sequence of these steps. */
module Kernel {
  import opened Protocol
  import opened Session
  import Decimal
  import Utf8

  /** The size of a reader's buffer: a read that fills it does not end a message. */
  const BUFFER_SIZE := 8192

  // ----- shell task -----

  datatype Outcome = Informed | Erred(error: string) | Succeeded(count: nat)

  /** Where the shell goes on once a message is accepted by the iopub queue. */
  datatype Then = ToDispatch | ToEvaluate | ToReply(outcome: Outcome) | ToListen

  datatype ShellPc =
    | Listening
    | Sending(m: Request, pub: Pub, next: Then)
    | Dispatching(m: Request)
    | UpdatingOut(m: Request)
    | UpdatingErr(m: Request)
    | Parsing(m: Request)
    | Evaluating(m: Request)
    | Replying(m: Request, outcome: Outcome)
    | Resetting(m: Request)
    | Rendering(m: Request, value: string, count: nat, filter: Option<string>, lazy: seq<Effect>)
    | Ended(why: Received)

  /** What a receive on the broadcast channel gives: the newest message, or an error. */
  datatype Received = Got(restart: bool) | Lagged | SenderGone

  /** A receiver's loop runs until a receive ends it. */
  datatype Life = Alive | Stopped(why: Received)

  datatype ShellTask = ShellTask(pc: ShellPc, seen: nat)

  // ----- other tasks -----

  datatype ControlPc =
    | Waiting
    | Polling(c: Control)
    | Answering(c: Control)
    | Closed

  /** `seen` counts the broadcasts that this receiver took. */
  datatype IopubTask = IopubTask(life: Life, seen: nat, hand: Option<Pub>)

  datatype HeartbeatTask = HeartbeatTask(life: Life, seen: nat)

  /** A byte together with the execute request whose code wrote it, counted from 1. */
  datatype Tagged = Tagged(byte: Byte, cell: nat)

  datatype ReaderPc =
    | Reading
    | Decoded(text: string, bytes: seq<Tagged>)
    | Posting(pub: Pub, bytes: seq<Tagged>, cell: nat)

  /** A stream message that entered the queue, with its bytes and the request it is attributed to. */
  datatype Chunk = Chunk(pub: Pub, bytes: seq<Tagged>, cell: nat)

  datatype StreamTask = StreamTask(
    unread: seq<Tagged>,
    buf: seq<Tagged>,
    pc: ReaderPc,
    identities: seq<Bytes>,
    parent: Option<Header>,
    cell: nat,                 // history: which execute request set identities and parent
    written: seq<Tagged>,      // history: every byte that entered the pipe
    chunks: seq<Chunk>)        // history: every message that entered the queue

  /** Append-only records: what the sockets carried, and what the tasks did. */
  datatype Log = Log(
    accepted: seq<Request>,
    replies: seq<Reply>,
    published: seq<Pub>,
    taken: seq<Control>,       // control requests received
    controlReplies: seq<ControlAnswer>,
    turns: seq<Turn>,          // completed turns of the shell loop
    names: seq<string>,        // the running cell's declarations
    effects: seq<Effect>,      // the running cell's effects so far
    turn: Turn,                // the current turn, once its evaluation is known
    executes: seq<Request>,    // execute requests begun
    completed: nat,            // executions ended
    stores: seq<nat>,          // executions ended when each interrupt set the flag
    clears: seq<nat>)          // the execution whose end cleared each interrupt's flag

  datatype State = State(
    initial: seq<Decl>,
    session: string,
    clock: string,
    minted: nat,
    crashed: bool,
    interrupt: bool,
    bus: seq<bool>,            // the restart flag of every broadcast sent
    shell: ShellTask,
    ctx: Session,
    control: ControlPc,
    queue: seq<Pub>,
    iopub: IopubTask,
    heartbeat: HeartbeatTask,
    out: StreamTask,
    err: StreamTask,
    log: Log)

  const FRESH_STREAM := StreamTask([], [], Reading, [], None, 0, [], [])

  function Start(initial: seq<Decl>, session: string, clock: string): State {
    State(initial, session, clock, 0, false, false, [],
          ShellTask(Listening, 0), Fresh(initial), Waiting,
          [], IopubTask(Alive, 0, None), HeartbeatTask(Alive, 0),
          FRESH_STREAM, FRESH_STREAM,
          Log([], [], [], [], [], [], [], [], Restarted, [], 0, [], []))
  }

  // ----- shared pieces -----

  /** `Header::new` takes the next message number; a header is minted with the message. */
  function Mint<C>(s: State, bare: Bare<C>, msgType: string): Message<C> {
    Message(bare.zmqIdentities,
            Header(Decimal.MessageId(s.session, s.minted), s.session, "nu_kernel", s.clock, msgType, "5.4"),
            bare.parentHeader, EMPTY_METADATA, bare.content, [])
  }

  function MintPub(s: State, bare: Bare<Iopub>): Pub {
    Mint(s, bare, IopubType(bare.content))
  }

  predicate BusReady(s: State, seen: nat) {
    seen < |s.bus| || s.control.Closed?
  }

  /** A broadcast channel of capacity 1: only the newest message can still be received. */
  function BusReceive(s: State, seen: nat): Received
    requires BusReady(s, seen)
  {
    if seen >= |s.bus| then SenderGone
    else if seen + 1 == |s.bus| then Got(s.bus[seen])
    else Lagged
  }

  /** Only a restart lets a loop go on. */
  function LifeAfter(received: Received): Life {
    if received == Got(true) then Alive else Stopped(received)
  }

  function StreamOf(s: State, name: StreamName): StreamTask {
    if name == Stdout then s.out else s.err
  }

  function WithStream(s: State, name: StreamName, t: StreamTask): State {
    if name == Stdout then s.(out := t) else s.(err := t)
  }

  /** A send to the queue of capacity 1 completes when it is empty; it aborts when the iopub task is gone. */
  predicate CanOffer(s: State) {
    s.iopub.life.Stopped? || s.queue == []
  }

  // ----- steps of the shell task -----

  datatype ShellStep =
    | Receive(m: Request)
    | Notice
    | Offer
    | Dispatch
    | UpdateReply
    | Reject(error: string)
    | Merge(names: seq<string>)
    | Run(effect: Effect)
    | Finish(result: Result)
    | Render(value: string, lazy: seq<Effect>)
    | Unfold
    | Show
    | Crash
    | SendReply
    | Reset

  /** The result that is being rendered asks for the filter's lock, which its own rendering holds. */
  predicate Hangs(pc: ShellPc) {
    pc.Rendering? && pc.lazy != [] && pc.lazy[0].Display?
  }

  /** The result that is being rendered comes to a print. */
  predicate AtPrint(pc: ShellPc) {
    pc.Rendering? && pc.lazy != [] && pc.lazy[0].Print?
  }

  predicate ShellEnabled(s: State, step: ShellStep) {
    var pc := s.shell.pc;
    match step
    // a broadcast may arrive between the two polls of a biased select
    case Receive(m) => pc.Listening? && Parsed(m)
    case Notice => pc.Listening? && BusReady(s, s.shell.seen)
    case Offer => pc.Sending? && CanOffer(s)
    case Dispatch => pc.Dispatching?
    case UpdateReply => pc.UpdatingOut? || pc.UpdatingErr?
    case Reject(_) => pc.Parsing?
    case Merge(_) => pc.Parsing?
    case Run(effect) => pc.Evaluating? && (effect.Print? ==> s.ctx.konst.Some?)
    case Finish(result) => pc.Evaluating? && !result.Value?
    // a value may be a stream that has effects of its own while it is collected; a display among them has no
    // step, because it waits for the filter's lock, which the rendering task itself holds
    case Render(_, _) => pc.Evaluating?
    case Unfold => pc.Rendering? && pc.lazy != [] && pc.lazy[0].EnableExternal?
    case Show => pc.Rendering? && pc.lazy == []
    // what `nuju print` is given may fail to render, and so may a value; a print while a value is rendered sends
    // blockingly inside the async task
    case Crash => pc.Evaluating? || AtPrint(pc) || (pc.Rendering? && pc.lazy == [])
    case SendReply => pc.Replying?
    case Reset => pc.Resetting?
  }

  /** What the other tasks own: the shell leaves it alone. */
  predicate SameOthers(s: State, t: State) {
    t.initial == s.initial && t.session == s.session && t.clock == s.clock && t.bus == s.bus &&
    t.control == s.control && t.iopub == s.iopub && t.heartbeat == s.heartbeat &&
    t.log.published == s.log.published && t.log.taken == s.log.taken &&
    t.log.controlReplies == s.log.controlReplies && t.log.stores == s.log.stores
  }

  /** A step of the shell that touches neither the queue, the streams nor the interrupt flag. */
  predicate ShellOnly(s: State, t: State) {
    SameOthers(s, t) && t.out == s.out && t.err == s.err && t.queue == s.queue && t.crashed == s.crashed &&
    t.shell.seen == s.shell.seen && t.interrupt == s.interrupt && t.log.completed == s.log.completed &&
    t.log.clears == s.log.clears && t.log.turns == s.log.turns
  }

  /** One message was minted, and waits for the queue. */
  predicate Minted(s: State, t: State) {
    t.minted == s.minted + 1 && t.shell.pc.Sending? &&
    t.shell.pc.pub.header.msgId == Decimal.MessageId(s.session, s.minted)
  }

  /** The shell mints `bare` and waits to hand it to the queue. */
  function Publish(s: State, bare: Bare<Iopub>, next: Then): (t: State)
    requires !s.shell.pc.Listening? && !s.shell.pc.Ended?
    ensures ShellOnly(s, t) && t.log == s.log && Minted(s, t)
    ensures t.shell.pc.m == s.shell.pc.m && t.shell.pc.next == next
  {
    s.(minted := s.minted + 1,
       shell := s.shell.(pc := Sending(s.shell.pc.m, MintPub(s, bare), next)))
  }

  predicate Serves(pc: ShellPc, m: Request) {
    !pc.Listening? && !pc.Ended? && pc.m == m
  }

  function Goto(s: State, pc: ShellPc): (t: State)
    ensures ShellOnly(s, t) && t.log == s.log && t.minted == s.minted && t.shell.pc == pc
  {
    s.(shell := s.shell.(pc := pc))
  }

  function Noticed(s: State): (t: State)
    requires BusReady(s, s.shell.seen) && s.shell.pc.Listening?
    ensures ShellOnly(s, t.(shell := s.shell, log := s.log)) && SameOthers(s, t)
    ensures if BusReceive(s, s.shell.seen) == Got(true)
            then t.shell.pc.Listening? && t.log == s.log.(turns := s.log.turns + [Restarted])
            else t.shell.pc == Ended(BusReceive(s, s.shell.seen)) && t.log == s.log
  {
    var t := s.(shell := s.shell.(seen := s.shell.seen + 1));
    match BusReceive(s, s.shell.seen)
    case Got(true) =>
      t.(ctx := Restart(s.ctx, s.initial), log := s.log.(turns := s.log.turns + [Restarted]))
    case why => Goto(t, Ended(why))
  }

  function Offered(s: State): (t: State)
    requires s.shell.pc.Sending?
    ensures ShellOnly(s, t.(queue := s.queue, crashed := s.crashed, log := s.log)) && SameOthers(s, t)
    ensures t.log == s.log.(turns := t.log.turns) && t.minted == s.minted
    ensures !t.shell.pc.Ended? && !t.shell.pc.UpdatingOut? && !t.shell.pc.UpdatingErr?
    ensures s.iopub.life.Stopped? ==> t == s.(crashed := true)
    ensures s.iopub.life.Alive? ==>
              t.queue == s.queue + [s.shell.pc.pub] && !t.shell.pc.Sending? &&
              t.log.turns == s.log.turns + if s.shell.pc.next.ToListen? then [s.log.turn] else []
  {
    var Sending(m, pub, next) := s.shell.pc;
    if s.iopub.life.Stopped? then s.(crashed := true)
    else
      var t := s.(queue := s.queue + [pub]);
      match next
      case ToDispatch => Goto(t, Dispatching(m))
      case ToEvaluate => Goto(t, Evaluating(m))
      case ToReply(outcome) => Goto(t, Replying(m, outcome))
      case ToListen => Goto(t, Listening).(log := s.log.(turns := s.log.turns + [s.log.turn]))
  }

  function Dispatched(s: State): (t: State)
    requires s.shell.pc.Dispatching?
    ensures ShellOnly(s, t)
    ensures if s.shell.pc.m.content.Execute?
            then t.shell.pc.UpdatingOut? && t.log.executes == s.log.executes + [s.shell.pc.m]
            else t.shell.pc.Replying? && t.log.executes == s.log.executes && t.log.turn == Answered(s.shell.pc.m)
    ensures t.log.accepted == s.log.accepted && Serves(t.shell.pc, s.shell.pc.m)
    ensures t.minted == s.minted && t.log.replies == s.log.replies
  {
    var m := s.shell.pc.m;
    if m.content.Execute? then
      Goto(s, UpdatingOut(m)).(
        ctx := Begin(s.ctx, m),
        log := s.log.(executes := s.log.executes + [m], names := [], effects := []))
    else
      Goto(s, Replying(m, Informed)).(log := s.log.(turn := Answered(m)))
  }

  /** `update_reply` replaces both halves of the pair under its lock. */
  function SetPair(t: StreamTask, m: Request, cell: nat): StreamTask {
    t.(identities := m.zmqIdentities, parent := Some(m.header), cell := cell)
  }

  function Accepted(s: State, m: Request): (t: State)
    requires s.shell.pc.Listening?
    ensures ShellOnly(s, t) && t.log == s.log.(accepted := t.log.accepted)
    ensures Minted(s, t) && t.shell.pc.next.ToDispatch?
  {
    Publish(Goto(s, Dispatching(m)).(log := s.log.(accepted := s.log.accepted + [m])),
            StatusOf(m, true), ToDispatch)
  }

  /** What the parser and compiler accepted is merged, and the code starts to run. */
  function Merged(s: State, names: seq<string>): (t: State)
    requires s.shell.pc.Parsing?
    ensures ShellOnly(s, t) && t.minted == s.minted
    ensures t.log == s.log.(names := names) && t.shell.pc == Evaluating(s.shell.pc.m)
  {
    Goto(s, Evaluating(s.shell.pc.m)).(ctx := Commit(s.ctx, names), log := s.log.(names := names))
  }

  function Performed(s: State, effect: Effect): (t: State)
    requires s.shell.pc.Evaluating? && (effect.Print? ==> s.ctx.konst.Some?)
    ensures ShellOnly(s, t) && t.log == s.log.(effects := t.log.effects)
    ensures if effect.Print? then Minted(s, t) && t.shell.pc.next.ToEvaluate?
            else t.minted == s.minted && t.shell.pc == s.shell.pc
  {
    var t := s.(ctx := Perform(s.ctx, effect), log := s.log.(effects := s.log.effects + [effect]));
    if effect.Print? then Publish(t, Printed(s.ctx.konst.value, effect)[0], ToEvaluate) else t
  }

  function Refused(s: State, error: string): (t: State)
    requires s.shell.pc.Parsing?
    ensures ShellOnly(s, t) && t.log == s.log.(turn := t.log.turn) && Serves(t.shell.pc, s.shell.pc.m)
    ensures Minted(s, t) && t.shell.pc.next.ToReply?
  {
    var m := s.shell.pc.m;
    Publish(s.(log := s.log.(turn := Executed(m, Rejected(error)))),
            Answer(m, DisplayData(Report(error))), ToReply(Erred(error)))
  }

  function Finished(s: State, result: Result): (t: State)
    requires s.shell.pc.Evaluating? && !result.Value?
    ensures ShellOnly(s, t) && Serves(t.shell.pc, s.shell.pc.m)
    ensures t.log == s.log.(turn := Executed(s.shell.pc.m, Ran(s.log.names, s.log.effects, result)))
    ensures if result.Nothing? then t.minted == s.minted && t.shell.pc.Replying?
            else Minted(s, t) && t.shell.pc.next.ToReply?
  {
    var m := s.shell.pc.m;
    var t := s.(log := s.log.(turn := Executed(m, Ran(s.log.names, s.log.effects, result))));
    match result
    case Failed(error) => Publish(t, Answer(m, DisplayData(Report(error))), ToReply(Erred(error)))
    case Nothing => Goto(t, Replying(m, Succeeded(s.ctx.cell.execution))).(ctx := Succeed(s.ctx))
  }

  /** A value counts as a success and takes the filter, before anything of it is rendered. */
  function RenderBegun(s: State, value: string, lazy: seq<Effect>): (t: State)
    requires s.shell.pc.Evaluating?
    ensures ShellOnly(s, t) && t.log == s.log && t.minted == s.minted
    ensures t.shell.pc == Rendering(s.shell.pc.m, value, s.ctx.cell.execution, s.ctx.filter, lazy)
    ensures t.ctx == TakeFilter(Succeed(s.ctx))
  {
    Goto(s, Rendering(s.shell.pc.m, value, s.ctx.cell.execution, s.ctx.filter, lazy)).(
      ctx := TakeFilter(Succeed(s.ctx)))
  }

  /** Collecting the value performs its next effect; it counts among the effects of the cell. */
  function Unfolded(s: State): (t: State)
    requires s.shell.pc.Rendering? && s.shell.pc.lazy != []
    ensures ShellOnly(s, t) && t.minted == s.minted
    ensures t.log == s.log.(effects := s.log.effects + [s.shell.pc.lazy[0]])
    ensures t.shell.pc == s.shell.pc.(lazy := s.shell.pc.lazy[1..])
  {
    var effect := s.shell.pc.lazy[0];
    Goto(s, s.shell.pc.(lazy := s.shell.pc.lazy[1..])).(
      ctx := Perform(s.ctx, effect), log := s.log.(effects := s.log.effects + [effect]))
  }

  function Shown(s: State): (t: State)
    requires s.shell.pc.Rendering?
    ensures ShellOnly(s, t) && Serves(t.shell.pc, s.shell.pc.m) && Minted(s, t) && t.shell.pc.next.ToReply?
    ensures t.log == s.log.(
              turn := Executed(s.shell.pc.m, Ran(s.log.names, s.log.effects, Value(s.shell.pc.value))))
  {
    var Rendering(m, value, count, filter, _) := s.shell.pc;
    Publish(s.(log := s.log.(turn := Executed(m, Ran(s.log.names, s.log.effects, Value(value))))),
            Answer(m, ExecuteResult(count, Rendered(value, filter))), ToReply(Succeeded(count)))
  }

  function ReplyOf(s: State, m: Request, outcome: Outcome): ShellReply {
    match outcome
    case Informed => if m.content.KernelInfo? then KernelInfoReply else IsCompleteReply
    case Erred(error) => ErrorReply(error, Some(s.ctx.cell.execution))
    case Succeeded(count) => ExecuteReply(count)
  }

  function TypeOfReply(m: Request): string {
    match ShellReplyType(m.header.msgType)
    case Some(t) => t
    case None => ""
  }

  /** The reply to the request being served, with the next message number. */
  function ReplyMessage(s: State): Reply
    requires s.shell.pc.Replying?
  {
    var Replying(m, outcome) := s.shell.pc;
    Mint(s, Answer(m, ReplyOf(s, m, outcome)), TypeOfReply(m))
  }

  function Replied(s: State): (t: State)
    requires s.shell.pc.Replying?
    ensures ShellOnly(s, t) && Serves(t.shell.pc, s.shell.pc.m)
    ensures t.log == s.log.(replies := s.log.replies + [ReplyMessage(s)])
    ensures if s.shell.pc.outcome.Informed?
            then t.minted == s.minted + 2 && t.shell.pc.Sending? && t.shell.pc.next.ToListen? &&
                 t.shell.pc.pub.header.msgId == Decimal.MessageId(s.session, s.minted + 1)
            else t.minted == s.minted + 1 && t.shell.pc.Resetting?
  {
    var Replying(m, outcome) := s.shell.pc;
    var t := s.(minted := s.minted + 1, log := s.log.(replies := s.log.replies + [ReplyMessage(s)]));
    if outcome.Informed? then Publish(t, StatusOf(m, false), ToListen) else Goto(t, Resetting(m))
  }

  /** `reset_signals` after every execution also lets the control task go on. */
  function SignalsReset(s: State): (t: State)
    requires s.shell.pc.Resetting?
    ensures ShellOnly(s, t.(interrupt := s.interrupt, log := s.log)) && SameOthers(s, t)
    ensures t.log == s.log.(completed := s.log.completed + 1,
                            clears := s.log.clears + if s.interrupt then [s.log.completed] else [])
    ensures !t.interrupt && t.shell.pc.Sending? && t.shell.pc.next.ToListen?
  {
    var log := s.log.(completed := s.log.completed + 1,
                      clears := s.log.clears + if s.interrupt then [s.log.completed] else []);
    Publish(s.(interrupt := false, log := log), StatusOf(s.shell.pc.m, false), ToListen)
  }

  function Updated(s: State): (t: State)
    requires s.shell.pc.UpdatingOut? || s.shell.pc.UpdatingErr?
    ensures SameOthers(s, t) && t.log == s.log && t.queue == s.queue && t.crashed == s.crashed
    ensures t.shell.seen == s.shell.seen && t.interrupt == s.interrupt
  {
    var pc, cell := s.shell.pc, |s.log.executes|;
    if pc.UpdatingOut? then Goto(s, UpdatingErr(pc.m)).(out := SetPair(s.out, pc.m, cell))
    else Goto(s, Parsing(pc.m)).(err := SetPair(s.err, pc.m, cell))
  }

  /** The steps from taking a request to its reply that only the shell notices. */
  predicate Inner(step: ShellStep) {
    !step.Notice? && !step.Offer? && !step.UpdateReply? && !step.Reset? && !step.Crash?
  }

  function InnerApply(s: State, step: ShellStep): (t: State)
    requires ShellEnabled(s, step) && Inner(step)
    ensures ShellOnly(s, t)
    ensures !step.Dispatch? ==> t.log.executes == s.log.executes
    ensures !t.shell.pc.UpdatingErr? && !t.shell.pc.Ended? && (t.shell.pc.UpdatingOut? ==> step.Dispatch?)
    ensures !step.Receive? ==> t.log.accepted == s.log.accepted && Serves(t.shell.pc, s.shell.pc.m)
    ensures !step.SendReply? ==>
              t.log.replies == s.log.replies &&
              if t.shell.pc.Sending? then Minted(s, t) && !t.shell.pc.next.ToListen? else t.minted == s.minted
  {
    match step
    case Receive(m) => Accepted(s, m)
    case Dispatch => Dispatched(s)
    case Reject(error) => Refused(s, error)
    case Merge(names) => Merged(s, names)
    case Run(effect) => Performed(s, effect)
    case Finish(result) => Finished(s, result)
    case Render(value, lazy) => RenderBegun(s, value, lazy)
    case Unfold => Unfolded(s)
    case Show => Shown(s)
    case SendReply => Replied(s)
  }

  function ShellApply(s: State, step: ShellStep): (t: State)
    requires ShellEnabled(s, step)
    ensures SameOthers(s, t) && !s.shell.pc.Ended?
    ensures !step.UpdateReply? ==> t.out == s.out && t.err == s.err
    ensures !step.Dispatch? ==> t.log.executes == s.log.executes
    ensures !step.Reset? ==>
              t.interrupt == s.interrupt && t.log.completed == s.log.completed && t.log.clears == s.log.clears
    ensures !step.Notice? ==> t.shell.seen == s.shell.seen && !t.shell.pc.Ended?
    ensures !step.Notice? && !step.Offer? ==> t.log.turns == s.log.turns
    ensures !step.Offer? ==> t.queue == s.queue
    ensures !step.Offer? && !step.Crash? ==> t.crashed == s.crashed
    ensures t.shell.pc.UpdatingOut? ==> step.Dispatch?
    ensures t.shell.pc.UpdatingErr? ==> step.UpdateReply? && s.shell.pc.UpdatingOut?
    ensures s.shell.pc.UpdatingOut? || s.shell.pc.UpdatingErr? ==> step.UpdateReply?
  {
    match step
    case Notice => Noticed(s)
    case Offer => Offered(s)
    case UpdateReply => Updated(s)
    case Crash => s.(crashed := true)
    case Reset => SignalsReset(s)
    case _ => InnerApply(s, step)
  }

  // ----- steps of the other tasks -----

  datatype IopubStep = IopubNotice | Take | Put

  predicate IopubEnabled(s: State, step: IopubStep) {
    s.iopub.life.Alive? &&
    match step
    case IopubNotice => s.iopub.hand.None? && BusReady(s, s.iopub.seen)
    // a broadcast may arrive between the two polls of a biased select
    case Take => s.iopub.hand.None? && s.queue != []
    case Put => s.iopub.hand.Some?
  }

  function IopubApply(s: State, step: IopubStep): State
    requires IopubEnabled(s, step)
  {
    match step
    case IopubNotice =>
      s.(iopub := s.iopub.(seen := s.iopub.seen + 1, life := LifeAfter(BusReceive(s, s.iopub.seen))))
    case Take => s.(queue := s.queue[1..], iopub := s.iopub.(hand := Some(s.queue[0])))
    case Put =>
      s.(iopub := s.iopub.(hand := None),
         log := s.log.(published := s.log.published + [s.iopub.hand.value]))
  }

  /** The heartbeat only echoes; what it echoes is not recorded. */
  datatype HeartbeatStep = HeartbeatNotice | Echo

  predicate HeartbeatEnabled(s: State, step: HeartbeatStep) {
    s.heartbeat.life.Alive? && (step.HeartbeatNotice? ==> BusReady(s, s.heartbeat.seen))
  }

  function HeartbeatApply(s: State, step: HeartbeatStep): State
    requires HeartbeatEnabled(s, step)
  {
    match step
    case HeartbeatNotice =>
      s.(heartbeat := HeartbeatTask(LifeAfter(BusReceive(s, s.heartbeat.seen)), s.heartbeat.seen + 1))
    case Echo => s
  }

  datatype ControlStep = ReceiveControl(c: Control) | Abort | Poll | AnswerControl

  predicate ControlEnabled(s: State, step: ControlStep) {
    match step
    case ReceiveControl(c) => s.control.Waiting? && ParsedControl(c)
    case Abort => s.control.Waiting?
    case Poll => s.control.Polling?
    case AnswerControl => s.control.Answering?
  }

  function ControlReplyOf(c: ControlRequest): ControlReply {
    match c
    case ControlKernelInfo => ControlKernelInfoReply
    case Shutdown(restart) => ShutdownReply(restart)
    case Interrupt => InterruptReply
  }

  function TypeOfControlReply(c: Control): string {
    match ControlReplyType(c.header.msgType)
    case Some(t) => t
    case None => ""
  }

  /** The reply to the control request being answered, with the next message number. */
  function ControlReplyMessage(s: State): ControlAnswer
    requires s.control.Answering?
  {
    Mint(s, Answer(s.control.c, ControlReplyOf(s.control.c.content)), TypeOfControlReply(s.control.c))
  }

  function ControlApply(s: State, step: ControlStep): (t: State)
    requires ControlEnabled(s, step)
    ensures t.shell == s.shell && t.ctx == s.ctx && t.queue == s.queue && t.iopub == s.iopub &&
            t.heartbeat == s.heartbeat && t.out == s.out && t.err == s.err &&
            t.session == s.session && t.initial == s.initial
    ensures t.log == s.log.(taken := t.log.taken, stores := t.log.stores, controlReplies := t.log.controlReplies)
    ensures t.log.taken == s.log.taken + if step.ReceiveControl? then [step.c] else []
    ensures if step.AnswerControl?
            then t.minted == s.minted + 1 && t.log.controlReplies == s.log.controlReplies + [ControlReplyMessage(s)]
            else t.minted == s.minted && t.log.controlReplies == s.log.controlReplies
  {
    match step
    case ReceiveControl(c) =>
      var u := s.(log := s.log.(taken := s.log.taken + [c]));
      (match c.content
       case ControlKernelInfo => u.(control := Answering(c))
       case Shutdown(restart) => u.(control := Answering(c), bus := s.bus + [restart])
       case Interrupt =>
         u.(control := Polling(c), interrupt := true,
            log := u.log.(stores := s.log.stores + [s.log.completed])))
    // a debug request, or one of an unknown type, aborts the process
    case Abort => s.(crashed := true)
    case Poll => if s.interrupt then s else s.(control := Answering(s.control.c))
    case AnswerControl =>
      s.(minted := s.minted + 1,
         control := if s.control.c.content == Shutdown(false) then Closed else Waiting,
         log := s.log.(controlReplies := s.log.controlReplies + [ControlReplyMessage(s)]))
  }

  datatype ReaderStep = Read(n: nat) | ReadEnd | Attribute | Post

  predicate ReaderReady(t: StreamTask, step: ReaderStep) {
    match step
    case Read(n) => t.pc.Reading? && 1 <= n <= BUFFER_SIZE && n <= |t.unread|
    case ReadEnd => t.pc.Reading? && t.unread == []
    case Attribute => t.pc.Decoded?
    case Post => t.pc.Posting?
  }

  predicate ReaderEnabled(s: State, name: StreamName, step: ReaderStep) {
    ReaderReady(StreamOf(s, name), step) &&
    // the write ends live in the shell's stacks
    (step.ReadEnd? ==> s.shell.pc.Ended?) &&
    (step.Post? ==> CanOffer(s))
  }

  function Untag(bytes: seq<Tagged>): Bytes {
    seq(|bytes|, i requires 0 <= i < |bytes| => bytes[i].byte)
  }

  /** One read of `n` bytes extends the buffer. */
  function Fill(t: StreamTask, n: nat): StreamTask
    requires n <= |t.unread|
  {
    t.(unread := t.unread[n..], buf := t.buf + t.unread[..n])
  }

  /** The inner read loop ended: the buffer becomes a text, or aborts the process. */
  function Complete(t: StreamTask): Option<StreamTask> {
    match Utf8.Decode(Untag(t.buf))
    case None => None
    case Some(text) => Some(t.(buf := [], pc := Decoded(text, t.buf)))
  }

  function TakePair(t: StreamTask, pub: Pub): StreamTask
    requires t.pc.Decoded?
  {
    t.(pc := Posting(pub, t.pc.bytes, t.cell))
  }

  function HandOver(t: StreamTask): StreamTask
    requires t.pc.Posting?
  {
    t.(pc := Reading, chunks := t.chunks + [Chunk(t.pc.pub, t.pc.bytes, t.pc.cell)])
  }

  /** The reader's own state after a step; `None` when the step aborts the process. */
  function ReaderTask(t: StreamTask, step: ReaderStep, pub: Pub): Option<StreamTask>
    requires ReaderReady(t, step)
  {
    match step
    case Read(n) => if n == BUFFER_SIZE then Some(Fill(t, n)) else Complete(Fill(t, n))
    case ReadEnd => if t.buf == [] then None else Complete(t)
    case Attribute => Some(TakePair(t, pub))
    case Post => Some(HandOver(t))
  }

  /** The message a reader builds from its text and the pair it finds. */
  function MintStream(s: State, name: StreamName, t: StreamTask): Pub {
    MintPub(s, Bare(t.identities, t.parent, Stream(name, if t.pc.Decoded? then t.pc.text else "")))
  }

  function ReaderApply(s: State, name: StreamName, step: ReaderStep): (t: State)
    requires ReaderEnabled(s, name, step)
    ensures t.shell == s.shell && t.ctx == s.ctx && t.log == s.log && t.initial == s.initial
    ensures t.iopub == s.iopub && t.control == s.control && t.bus == s.bus && t.heartbeat == s.heartbeat
    ensures t.interrupt == s.interrupt && t.session == s.session
    ensures name == Stdout ==> t.err == s.err
    ensures name == Stderr ==> t.out == s.out
    ensures StreamOf(t, name) == StreamOf(s, name) ||
            Some(StreamOf(t, name)) == ReaderTask(StreamOf(s, name), step, MintStream(s, name, StreamOf(s, name)))
    ensures !step.Attribute? ==> t.minted == s.minted
    ensures !step.Post? || s.iopub.life.Stopped? ==> t.queue == s.queue
    ensures step.Post? && s.iopub.life.Alive? ==> t.queue == s.queue + [StreamOf(s, name).pc.pub]
    ensures step.Read? || step.ReadEnd? ==> !StreamOf(t, name).pc.Posting? && !StreamOf(s, name).pc.Posting?
  {
    var t := StreamOf(s, name);
    match ReaderTask(t, step, MintStream(s, name, t))
    case None => s.(crashed := true)
    case Some(u) =>
      if step.Attribute? then WithStream(s, name, u).(minted := s.minted + 1)
      else if step.Post? then
        if s.iopub.life.Stopped? then s.(crashed := true)
        else WithStream(s, name, u).(queue := s.queue + [t.pc.pub])
      else WithStream(s, name, u)
  }

  // ----- the whole system -----

  datatype Step =
    | ShellDo(shell: ShellStep)
    | IopubDo(iopub: IopubStep)
    | HeartbeatDo(heartbeat: HeartbeatStep)
    | ControlDo(control: ControlStep)
    | ReaderDo(name: StreamName, reader: ReaderStep)
    | Write(stream: StreamName, cell: nat, text: Bytes)
    | Tick(now: string)

  /** The number of execute requests whose code has started to run. */
  function Begun(s: State): nat {
    if (s.shell.pc.UpdatingOut? || s.shell.pc.UpdatingErr?) && s.log.executes != []
    then |s.log.executes| - 1
    else |s.log.executes|
  }

  predicate Enabled(s: State, step: Step) {
    !s.crashed &&
    match step
    case ShellDo(a) => ShellEnabled(s, a)
    case IopubDo(a) => IopubEnabled(s, a)
    case HeartbeatDo(a) => HeartbeatEnabled(s, a)
    case ControlDo(a) => ControlEnabled(s, a)
    case ReaderDo(name, a) => ReaderEnabled(s, name, a)
    // code of a cell, or a process it left behind, writes at any time after the cell began
    case Write(_, cell, _) => 1 <= cell <= Begun(s)
    case Tick(_) => true
  }

  function Tag(text: Bytes, cell: nat): seq<Tagged> {
    seq(|text|, i requires 0 <= i < |text| => Tagged(text[i], cell))
  }

  function Apply(s: State, step: Step): State
    requires Enabled(s, step)
  {
    match step
    case ShellDo(a) => ShellApply(s, a)
    case IopubDo(a) => IopubApply(s, a)
    case HeartbeatDo(a) => HeartbeatApply(s, a)
    case ControlDo(a) => ControlApply(s, a)
    case ReaderDo(name, a) => ReaderApply(s, name, a)
    case Write(name, cell, text) =>
      var t := StreamOf(s, name);
      WithStream(s, name, t.(unread := t.unread + Tag(text, cell), written := t.written + Tag(text, cell)))
    case Tick(now) => s.(clock := now)
  }

  /** A run: states that follow one another by enabled steps, from a start state. */
  ghost predicate IsRun(run: seq<State>, steps: seq<Step>) {
    |run| == |steps| + 1 &&
    run[0] == Start(run[0].initial, run[0].session, run[0].clock) &&
    forall i :: 0 <= i < |steps| ==> Enabled(run[i], steps[i]) && run[i + 1] == Apply(run[i], steps[i])
  }

  ghost predicate Reachable(s: State) {
    exists run, steps :: IsRun(run, steps) && run[|run| - 1] == s
  }

  /** Everything that entered the queue, oldest first. */
  function Pipeline(s: State): seq<Pub> {
    s.log.published + (if s.iopub.hand.Some? then [s.iopub.hand.value] else []) + s.queue
  }
}
