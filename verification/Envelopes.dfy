/** What every run keeps of the messages around their contents: headers, metadata and buffers. */
module Envelopes {
  import opened Protocol
  import opened Session
  import opened Kernel
  import Refinement

  /** Every message of the kernel names its session, user and protocol version, and has no metadata and no buffers. */
  predicate FromKernel<C>(m: Message<C>, session: string) {
    m.header.session == session && m.header.username == "nu_kernel" && m.header.version == "5.4" &&
    m.metadata == "{}" && m.buffers == []
  }

  /** The type of an iopub message says what it holds; a status goes to every subscriber. */
  predicate TypedPub(pub: Pub) {
    match pub.content
    case Status(_) => pub.header.msgType == "status" && pub.zmqIdentities == []
    case DisplayData(_) => pub.header.msgType == "display_data"
    case ExecuteResult(_, _) => pub.header.msgType == "execute_result"
    case Stream(_, _) => pub.header.msgType == "stream"
  }

  predicate PubFits(pub: Pub, session: string) {
    FromKernel(pub, session) && TypedPub(pub)
  }

  predicate AllPubsFit(pubs: seq<Pub>, session: string) {
    forall i :: 0 <= i < |pubs| ==> PubFits(pubs[i], session)
  }

  predicate AllFromKernel<C>(messages: seq<Message<C>>, session: string) {
    forall i :: 0 <= i < |messages| ==> FromKernel(messages[i], session)
  }

  predicate ReaderHolds(pc: ReaderPc, session: string) {
    pc.Posting? ==> PubFits(pc.pub, session)
  }

  predicate ShellHolds(pc: ShellPc, session: string) {
    pc.Sending? ==> PubFits(pc.pub, session)
  }

  predicate EnvelopesFit(s: State) {
    && AllPubsFit(Pipeline(s), s.session)
    && ShellHolds(s.shell.pc, s.session)
    && ReaderHolds(s.out.pc, s.session)
    && ReaderHolds(s.err.pc, s.session)
    && AllFromKernel(s.log.replies, s.session)
    && AllFromKernel(s.log.controlReplies, s.session)
    && |s.queue| <= 1
  }

  lemma PublishedFits(s: State, bare: Bare<Iopub>)
    requires bare.content.Status? ==> bare.zmqIdentities == []
    ensures PubFits(MintPub(s, bare), s.session)
  {
  }

  /** What the shell holds after a step that may end the evaluation. */
  lemma ConcludingHolds(s: State, step: ShellStep)
    requires ShellEnabled(s, step) && (step.Reject? || step.Finish? || step.Show?)
    ensures ShellHolds(InnerApply(s, step).shell.pc, s.session)
  {
  }

  /** What the shell holds after one of its inner steps. */
  lemma InnerHolds(s: State, step: ShellStep)
    requires ShellEnabled(s, step) && Inner(step)
    ensures ShellHolds(InnerApply(s, step).shell.pc, s.session)
  {
    if step.Reject? || step.Finish? || step.Show? {
      ConcludingHolds(s, step);
    }
  }

  lemma InnerKeepsEnvelopes(s: State, step: ShellStep)
    requires EnvelopesFit(s) && ShellEnabled(s, step) && Inner(step)
    ensures EnvelopesFit(InnerApply(s, step))
  {
    var t := InnerApply(s, step);
    InnerHolds(s, step);
    Refinement.SamePipeline(s, t);
    if step.SendReply? {
      assert t.log.replies == s.log.replies + [ReplyMessage(s)] && FromKernel(ReplyMessage(s), s.session);
    }
  }

  lemma OfferKeepsEnvelopes(s: State)
    requires EnvelopesFit(s) && ShellEnabled(s, Offer)
    ensures EnvelopesFit(Offered(s))
  {
    var t := Offered(s);
    if s.iopub.life.Alive? {
      assert Pipeline(t) == Pipeline(s) + [s.shell.pc.pub];
    } else {
      Refinement.SamePipeline(s, t);
    }
  }

  /** A step that mints nothing and moves nothing. */
  predicate SameEnvelopes(s: State, t: State) {
    t.session == s.session && Pipeline(t) == Pipeline(s) && |t.queue| <= 1 &&
    (t.shell.pc.Sending? ==> t.shell.pc == s.shell.pc) &&
    (t.out.pc.Posting? ==> t.out.pc == s.out.pc) && (t.err.pc.Posting? ==> t.err.pc == s.err.pc) &&
    t.log.replies == s.log.replies && t.log.controlReplies == s.log.controlReplies
  }

  lemma NoticeOnEnvelopes(s: State)
    requires ShellEnabled(s, Notice) && |s.queue| <= 1
    ensures SameEnvelopes(s, Noticed(s))
  {
    Refinement.SamePipeline(s, Noticed(s));
  }

  lemma UpdateOnEnvelopes(s: State)
    requires ShellEnabled(s, UpdateReply) && |s.queue| <= 1
    ensures SameEnvelopes(s, Updated(s))
  {
    Refinement.SamePipeline(s, Updated(s));
  }

  lemma ResetKeepsEnvelopes(s: State)
    requires EnvelopesFit(s) && ShellEnabled(s, Reset)
    ensures EnvelopesFit(SignalsReset(s))
  {
    PublishedFits(s, StatusOf(s.shell.pc.m, false));
    Refinement.SamePipeline(s, SignalsReset(s));
  }

  lemma ShellKeepsEnvelopes(s: State, step: ShellStep)
    requires EnvelopesFit(s) && ShellEnabled(s, step)
    ensures EnvelopesFit(ShellApply(s, step))
  {
    match step
    case Offer => OfferKeepsEnvelopes(s);
    case Notice => NoticeOnEnvelopes(s);
    case UpdateReply => UpdateOnEnvelopes(s);
    case Reset => ResetKeepsEnvelopes(s);
    case Crash => Refinement.SamePipeline(s, ShellApply(s, step));
    case _ => InnerKeepsEnvelopes(s, step);
  }

  lemma IopubOnEnvelopes(s: State, step: IopubStep)
    requires IopubEnabled(s, step) && |s.queue| <= 1
    ensures SameEnvelopes(s, IopubApply(s, step))
  {
    Refinement.IopubKeepsPipeline(s, step);
  }

  lemma ControlKeepsEnvelopes(s: State, step: ControlStep)
    requires EnvelopesFit(s) && ControlEnabled(s, step)
    ensures EnvelopesFit(ControlApply(s, step))
  {
    var t := ControlApply(s, step);
    Refinement.SamePipeline(s, t);
    if step.AnswerControl? {
      assert FromKernel(ControlReplyMessage(s), s.session);
    }
  }

  lemma PostKeepsEnvelopes(s: State, name: StreamName)
    requires EnvelopesFit(s) && ReaderEnabled(s, name, Post)
    ensures EnvelopesFit(ReaderApply(s, name, Post))
  {
    var t := ReaderApply(s, name, Post);
    if s.iopub.life.Alive? {
      assert Pipeline(t) == Pipeline(s) + [StreamOf(s, name).pc.pub];
    } else {
      assert t == s.(crashed := true);
    }
  }

  lemma AttributeKeepsEnvelopes(s: State, name: StreamName)
    requires EnvelopesFit(s) && ReaderEnabled(s, name, Attribute)
    ensures EnvelopesFit(ReaderApply(s, name, Attribute))
  {
    var t := StreamOf(s, name);
    PublishedFits(s, Bare(t.identities, t.parent, Stream(name, t.pc.text)));
    Refinement.SamePipeline(s, ReaderApply(s, name, Attribute));
  }

  lemma ReadOnEnvelopes(s: State, name: StreamName, step: ReaderStep)
    requires ReaderEnabled(s, name, step) && (step.Read? || step.ReadEnd?) && |s.queue| <= 1
    ensures SameEnvelopes(s, ReaderApply(s, name, step))
  {
    Refinement.SamePipeline(s, ReaderApply(s, name, step));
  }

  lemma ReaderKeepsEnvelopes(s: State, name: StreamName, step: ReaderStep)
    requires EnvelopesFit(s) && ReaderEnabled(s, name, step)
    ensures EnvelopesFit(ReaderApply(s, name, step))
  {
    match step
    case Attribute => AttributeKeepsEnvelopes(s, name);
    case Post => PostKeepsEnvelopes(s, name);
    case _ => ReadOnEnvelopes(s, name, step);
  }

  lemma OthersOnEnvelopes(s: State, step: Step)
    requires Enabled(s, step) && (step.HeartbeatDo? || step.Write? || step.Tick?) && |s.queue| <= 1
    ensures SameEnvelopes(s, Apply(s, step))
  {
    Refinement.SamePipeline(s, Apply(s, step));
  }

  /** Every step of every task keeps the envelopes. */
  lemma StepKeepsEnvelopes(s: State, step: Step)
    requires EnvelopesFit(s) && Enabled(s, step)
    ensures EnvelopesFit(Apply(s, step))
  {
    match step
    case ShellDo(a) => ShellKeepsEnvelopes(s, a);
    case IopubDo(a) => IopubOnEnvelopes(s, a);
    case ControlDo(a) => ControlKeepsEnvelopes(s, a);
    case ReaderDo(name, a) => ReaderKeepsEnvelopes(s, name, a);
    case _ => OthersOnEnvelopes(s, step);
  }

  // ----- dates -----

  predicate DatedFrom<C>(messages: seq<Message<C>>, from: nat, now: string) {
    forall i :: from <= i < |messages| ==> messages[i].header.date == now
  }

  predicate ShellMinted(s: State, t: State) {
    (t.shell.pc.Sending? && t.shell.pc != s.shell.pc ==> t.shell.pc.pub.header.date == s.clock) &&
    DatedFrom(t.log.replies, |s.log.replies|, s.clock)
  }

  lemma ConcludingMintsNow(s: State, step: ShellStep)
    requires ShellEnabled(s, step) && (step.Reject? || step.Finish? || step.Show?)
    ensures ShellMinted(s, InnerApply(s, step))
  {
  }

  lemma InnerMintsNow(s: State, step: ShellStep)
    requires ShellEnabled(s, step) && Inner(step)
    ensures ShellMinted(s, InnerApply(s, step))
  {
    if step.Reject? || step.Finish? || step.Show? {
      ConcludingMintsNow(s, step);
    }
  }

  lemma ShellMintsNow(s: State, step: ShellStep)
    requires ShellEnabled(s, step)
    ensures ShellMinted(s, ShellApply(s, step))
  {
    match step
    case Notice =>
    case Offer =>
    case UpdateReply =>
    case Crash =>
    case Reset =>
    case _ => InnerMintsNow(s, step);
  }

  /** Whatever a step mints is dated by the clock at that step: a reply, or a message that a task then holds. */
  lemma MintedNow(s: State, step: Step)
    requires Enabled(s, step)
    ensures var t := Apply(s, step);
            && ShellMinted(s, t)
            && (t.out.pc.Posting? && t.out.pc != s.out.pc ==> t.out.pc.pub.header.date == s.clock)
            && (t.err.pc.Posting? && t.err.pc != s.err.pc ==> t.err.pc.pub.header.date == s.clock)
            && DatedFrom(t.log.controlReplies, |s.log.controlReplies|, s.clock)
  {
    match step
    case ShellDo(a) => ShellMintsNow(s, a);
    case ControlDo(_) =>
    case _ =>
  }

  lemma StartEnvelopesFit(initial: seq<Decl>, session: string, clock: string)
    ensures EnvelopesFit(Start(initial, session, clock))
  {
    assert Pipeline(Start(initial, session, clock)) == [];
  }
}
