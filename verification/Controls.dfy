/** What every run keeps of the control socket: who asked for what, and what was answered. */
module Controls {
  import opened Protocol
  import opened Session
  import opened Kernel

  /** A control reply goes back to its request: the same identities, its header as parent, its kind and type. */
  predicate AnswersControl(c: Control, reply: ControlAnswer) {
    reply.zmqIdentities == c.zmqIdentities && reply.parentHeader == Some(c.header) &&
    match c.content
    case ControlKernelInfo =>
      c.header.msgType == "kernel_info_request" && reply.header.msgType == "kernel_info_reply" &&
      reply.content == ControlKernelInfoReply
    case Shutdown(restart) =>
      c.header.msgType == "shutdown_request" && reply.header.msgType == "shutdown_reply" &&
      reply.content == ShutdownReply(restart)
    case Interrupt =>
      c.header.msgType == "interrupt_request" && reply.header.msgType == "interrupt_reply" &&
      reply.content == InterruptReply
  }

  predicate AllAnswered(taken: seq<Control>, replies: seq<ControlAnswer>) {
    |replies| <= |taken| && forall i :: 0 <= i < |replies| ==> AnswersControl(taken[i], replies[i])
  }

  /** The restart flags of the shutdowns among the requests, in order. */
  function Flags(taken: seq<Control>): seq<bool> {
    if taken == [] then []
    else
      var last := taken[|taken| - 1].content;
      Flags(taken[..|taken| - 1]) + if last.Shutdown? then [last.restart] else []
  }

  /** Control serves the request it took last. */
  predicate Serving(control: ControlPc) {
    control.Polling? || control.Answering?
  }

  /** Of the requests taken, only the last may be unanswered. */
  predicate OneAtATime(control: ControlPc, taken: seq<Control>, replies: seq<ControlAnswer>) {
    if Serving(control)
    then |taken| == |replies| + 1 && taken[|replies|] == control.c && ParsedControl(control.c)
    else |taken| == |replies|
  }

  /** Nothing is taken behind a shutdown without restart, and answering one is what ends the task. */
  predicate LastShutdown(control: ControlPc, taken: seq<Control>) {
    (forall i :: 0 <= i < |taken| && taken[i].content == Shutdown(false) ==>
       i == |taken| - 1 && !control.Waiting?) &&
    (control.Closed? ==> taken != [] && taken[|taken| - 1].content == Shutdown(false))
  }

  predicate ControlsFit(s: State) {
    && AllAnswered(s.log.taken, s.log.controlReplies)
    && OneAtATime(s.control, s.log.taken, s.log.controlReplies)
    && LastShutdown(s.control, s.log.taken)
    && s.bus == Flags(s.log.taken)
  }

  lemma FlagsPlus(taken: seq<Control>, c: Control)
    ensures Flags(taken + [c]) == Flags(taken) + if c.content.Shutdown? then [c.content.restart] else []
  {
    assert (taken + [c])[..|taken|] == taken;
  }

  lemma ReplyAnswersControl(s: State)
    requires s.control.Answering? && ParsedControl(s.control.c)
    ensures AnswersControl(s.control.c, ControlReplyMessage(s))
  {
  }

  lemma MoreAnswered(taken: seq<Control>, replies: seq<ControlAnswer>, reply: ControlAnswer)
    requires AllAnswered(taken, replies) && |replies| < |taken| && AnswersControl(taken[|replies|], reply)
    ensures AllAnswered(taken, replies + [reply])
  {
  }

  lemma TakingKeepsControls(s: State, c: Control)
    requires ControlsFit(s) && ControlEnabled(s, ReceiveControl(c))
    ensures ControlsFit(ControlApply(s, ReceiveControl(c)))
  {
    FlagsPlus(s.log.taken, c);
  }

  lemma AnsweringKeepsControls(s: State)
    requires ControlsFit(s) && ControlEnabled(s, AnswerControl)
    ensures ControlsFit(ControlApply(s, AnswerControl))
  {
    ReplyAnswersControl(s);
    MoreAnswered(s.log.taken, s.log.controlReplies, ControlReplyMessage(s));
  }

  lemma ControlKeepsControls(s: State, step: ControlStep)
    requires ControlsFit(s) && ControlEnabled(s, step)
    ensures ControlsFit(ControlApply(s, step))
  {
    match step
    case ReceiveControl(c) => TakingKeepsControls(s, c);
    case AnswerControl => AnsweringKeepsControls(s);
    case Poll =>
    case Abort =>
  }

  predicate SameControls(s: State, t: State) {
    t.control == s.control && t.bus == s.bus && t.log.taken == s.log.taken &&
    t.log.controlReplies == s.log.controlReplies
  }

  lemma OthersOnControls(s: State, step: Step)
    requires Enabled(s, step) && !step.ControlDo?
    ensures SameControls(s, Apply(s, step))
  {
  }

  /** Every step of every task keeps what is known of the control socket. */
  lemma StepKeepsControls(s: State, step: Step)
    requires ControlsFit(s) && Enabled(s, step)
    ensures ControlsFit(Apply(s, step))
  {
    match step
    case ControlDo(a) => ControlKeepsControls(s, a);
    case _ => OthersOnControls(s, step);
  }

  lemma StartControlsFit(initial: seq<Decl>, session: string, clock: string)
    ensures ControlsFit(Start(initial, session, clock))
  {
  }
}
