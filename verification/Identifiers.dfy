/** Message ids are never used twice, whichever task mints them. */
module Identifiers {
  import opened Protocol
  import opened Kernel
  import Decimal
  import Refinement

  function Names<C>(messages: seq<Message<C>>): seq<string> {
    seq(|messages|, i requires 0 <= i < |messages| => messages[i].header.msgId)
  }

  function IdsOf<C>(messages: seq<Message<C>>): multiset<string> {
    multiset(Names(messages))
  }

  /** The ids that numbers below `n` give. */
  function Numbered(session: string, n: nat): multiset<string> {
    if n == 0 then multiset{} else Numbered(session, n - 1) + multiset{Decimal.MessageId(session, n - 1)}
  }

  function ShellHolds(pc: ShellPc): multiset<string> {
    if pc.Sending? then multiset{pc.pub.header.msgId} else multiset{}
  }

  function ReaderHolds(pc: ReaderPc): multiset<string> {
    if pc.Posting? then multiset{pc.pub.header.msgId} else multiset{}
  }

  /** Where the ids are: in the pipeline, on the two reply sockets, or with a task that waits. */
  datatype Ledger = Ledger(
    pipeline: multiset<string>,
    replies: multiset<string>,
    control: multiset<string>,
    shell: multiset<string>,
    out: multiset<string>,
    err: multiset<string>)

  function LedgerOf(s: State): Ledger {
    Ledger(IdsOf(Pipeline(s)), IdsOf(s.log.replies), IdsOf(s.log.controlReplies),
           ShellHolds(s.shell.pc), ReaderHolds(s.out.pc), ReaderHolds(s.err.pc))
  }

  function Total(l: Ledger): multiset<string> {
    l.pipeline + l.replies + l.control + l.shell + l.out + l.err
  }

  /** The ids in use are those of the numbers given out, once each. */
  predicate IdsFit(s: State) {
    Total(LedgerOf(s)) == Numbered(s.session, s.minted)
  }

  lemma IdsPlus<C>(messages: seq<Message<C>>, m: Message<C>)
    ensures IdsOf(messages + [m]) == IdsOf(messages) + multiset{m.header.msgId}
  {
    assert Names(messages + [m]) == Names(messages) + [m.header.msgId];
  }

  lemma {:induction false} NumberedBelow(session: string, n: nat, k: nat)
    ensures Decimal.MessageId(session, k) in Numbered(session, n) ==> k < n
  {
    if n != 0 {
      NumberedBelow(session, n - 1, k);
      if Decimal.MessageId(session, k) == Decimal.MessageId(session, n - 1) {
        Decimal.MessageIdInjective(session, k, n - 1);
      }
    }
  }

  /** While the counter does not wrap, no id is given twice. */
  lemma {:induction false} NumberedOnce(session: string, n: nat, id: string)
    ensures Numbered(session, n)[id] <= 1
  {
    if n != 0 {
      NumberedOnce(session, n - 1, id);
      NumberedBelow(session, n - 1, n - 1);
    }
  }

  // ----- how steps move ids -----

  function Id(s: State): multiset<string> {
    multiset{Decimal.MessageId(s.session, s.minted)}
  }

  lemma NumberedPlus(session: string, n: nat)
    ensures Numbered(session, n + 1) == Numbered(session, n) + multiset{Decimal.MessageId(session, n)}
  {
  }

  lemma OfferedPipeline(s: State, t: State, pub: Pub)
    requires t.log.published == s.log.published && t.iopub.hand == s.iopub.hand && t.queue == s.queue + [pub]
    ensures IdsOf(Pipeline(t)) == IdsOf(Pipeline(s)) + multiset{pub.header.msgId}
  {
    assert Pipeline(t) == Pipeline(s) + [pub];
    GrownIds(Pipeline(s), Pipeline(t), pub, pub.header.msgId);
  }

  lemma TotalOfShell(l: Ledger, a: multiset<string>)
    requires l.shell == multiset{}
    ensures Total(l.(shell := a)) == Total(l) + a
  {
  }

  lemma TotalOfReader(l: Ledger, name: StreamName, a: multiset<string>)
    requires (if name == Stdout then l.out else l.err) == multiset{}
    ensures Total(if name == Stdout then l.(out := a) else l.(err := a)) == Total(l) + a
  {
  }

  lemma TotalOfPost(l: Ledger, name: StreamName)
    ensures Total(if name == Stdout then l.(pipeline := l.pipeline + l.out, out := multiset{})
                  else l.(pipeline := l.pipeline + l.err, err := multiset{})) == Total(l)
  {
  }

  lemma InnerMoves(s: State, step: ShellStep)
    requires ShellEnabled(s, step) && Inner(step) && !step.SendReply?
    ensures var t := InnerApply(s, step);
            LedgerOf(t) == LedgerOf(s).(shell := if t.minted == s.minted then multiset{} else Id(s)) &&
            (t.minted == s.minted || t.minted == s.minted + 1)
    ensures LedgerOf(s).shell == multiset{}
  {
    var t := InnerApply(s, step);
    Refinement.SamePipeline(s, t);
  }

  lemma InnerKeepsIds(s: State, step: ShellStep)
    requires IdsFit(s) && ShellEnabled(s, step) && Inner(step) && !step.SendReply?
    ensures IdsFit(InnerApply(s, step))
  {
    InnerMoves(s, step);
    NumberedPlus(s.session, s.minted);
    TotalOfShell(LedgerOf(s), LedgerOf(InnerApply(s, step)).shell);
  }

  lemma GrownIds<C>(before: seq<Message<C>>, after: seq<Message<C>>, m: Message<C>, id: string)
    requires after == before + [m] && m.header.msgId == id
    ensures IdsOf(after) == IdsOf(before) + multiset{id}
  {
    IdsPlus(before, m);
  }

  lemma ReplyGrowsReplies(s: State)
    requires ShellEnabled(s, SendReply)
    ensures IdsOf(Replied(s).log.replies) == IdsOf(s.log.replies) + Id(s)
  {
    GrownIds(s.log.replies, Replied(s).log.replies, ReplyMessage(s), Decimal.MessageId(s.session, s.minted));
  }

  lemma TotalOfReply(l: Ledger, a: multiset<string>, b: multiset<string>)
    requires l.shell == multiset{}
    ensures Total(l.(replies := l.replies + a, shell := b)) == Total(l) + a + b
  {
  }

  lemma TotalOfOffer(l: Ledger)
    ensures Total(l.(pipeline := l.pipeline + l.shell, shell := multiset{})) == Total(l)
  {
  }

  /** A reply to an information request is minted together with the idle status that follows it. */
  lemma ReplyMoves(s: State)
    requires ShellEnabled(s, SendReply)
    ensures var t, l := Replied(s), LedgerOf(s);
            LedgerOf(t) == l.(replies := l.replies + Id(s), shell := ShellHolds(t.shell.pc))
    ensures LedgerOf(s).shell == multiset{}
  {
    ReplyGrowsReplies(s);
    Refinement.SamePipeline(s, Replied(s));
  }

  lemma ReplyMints(s: State)
    requires ShellEnabled(s, SendReply)
    ensures var t := Replied(s);
            t.session == s.session &&
            Numbered(s.session, t.minted) == Numbered(s.session, s.minted) + Id(s) + ShellHolds(t.shell.pc)
  {
    NumberedPlus(s.session, s.minted);
    NumberedPlus(s.session, s.minted + 1);
  }

  lemma ReplyKeepsIds(s: State)
    requires IdsFit(s) && ShellEnabled(s, SendReply)
    ensures IdsFit(Replied(s))
  {
    ReplyMoves(s);
    ReplyMints(s);
    TotalOfReply(LedgerOf(s), Id(s), ShellHolds(Replied(s).shell.pc));
  }

  lemma OfferMoves(s: State)
    requires ShellEnabled(s, Offer) && s.iopub.life.Alive?
    ensures var t, l := Offered(s), LedgerOf(s);
            LedgerOf(t) == l.(pipeline := l.pipeline + l.shell, shell := multiset{})
  {
    OfferedPipeline(s, Offered(s), s.shell.pc.pub);
  }

  lemma OfferKeepsIds(s: State)
    requires IdsFit(s) && ShellEnabled(s, Offer)
    ensures IdsFit(Offered(s))
  {
    if s.iopub.life.Alive? {
      OfferMoves(s);
      TotalOfOffer(LedgerOf(s));
    } else {
      Refinement.SamePipeline(s, Offered(s));
    }
  }

  lemma ResetKeepsIds(s: State)
    requires IdsFit(s) && ShellEnabled(s, Reset)
    ensures IdsFit(SignalsReset(s))
  {
    Refinement.SamePipeline(s, SignalsReset(s));
    assert LedgerOf(SignalsReset(s)) == LedgerOf(s).(shell := Id(s));
    NumberedPlus(s.session, s.minted);
  }

  predicate SameIds(s: State, t: State) {
    t.session == s.session && t.minted == s.minted && LedgerOf(t) == LedgerOf(s)
  }

  lemma NoticeMoves(s: State)
    requires ShellEnabled(s, Notice)
    ensures SameIds(s, Noticed(s))
  {
    Refinement.SamePipeline(s, Noticed(s));
  }

  lemma UpdateMoves(s: State)
    requires ShellEnabled(s, UpdateReply)
    ensures SameIds(s, Kernel.Updated(s))
  {
    Refinement.SamePipeline(s, Kernel.Updated(s));
  }

  lemma ShellKeepsIds(s: State, step: ShellStep)
    requires IdsFit(s) && ShellEnabled(s, step)
    ensures IdsFit(ShellApply(s, step))
  {
    match step
    case Offer => OfferKeepsIds(s);
    case SendReply => ReplyKeepsIds(s);
    case Reset => ResetKeepsIds(s);
    case Notice => NoticeMoves(s);
    case UpdateReply => UpdateMoves(s);
    case Crash => Refinement.SamePipeline(s, ShellApply(s, step));
    case _ => InnerKeepsIds(s, step);
  }

  lemma IopubMoves(s: State, step: IopubStep)
    requires IopubEnabled(s, step)
    ensures SameIds(s, IopubApply(s, step))
  {
    Refinement.IopubKeepsPipeline(s, step);
  }

  lemma AnswerMoves(s: State)
    requires ControlEnabled(s, AnswerControl)
    ensures var t, l := ControlApply(s, AnswerControl), LedgerOf(s);
            t.session == s.session && t.minted == s.minted + 1 &&
            LedgerOf(t) == l.(control := l.control + Id(s))
  {
    var t := ControlApply(s, AnswerControl);
    GrownIds(s.log.controlReplies, t.log.controlReplies, ControlReplyMessage(s), Decimal.MessageId(s.session, s.minted));
    Refinement.SamePipeline(s, t);
  }

  lemma ControlKeepsIds(s: State, step: ControlStep)
    requires IdsFit(s) && ControlEnabled(s, step)
    ensures IdsFit(ControlApply(s, step))
  {
    if step.AnswerControl? {
      AnswerMoves(s);
      NumberedPlus(s.session, s.minted);
    } else {
      Refinement.SamePipeline(s, ControlApply(s, step));
    }
  }

  /** A reader mints while it takes the pair, and then holds the message. */
  lemma AttributeMoves(s: State, name: StreamName)
    requires ReaderEnabled(s, name, Attribute)
    ensures var t, l := ReaderApply(s, name, Attribute), LedgerOf(s);
            t.session == s.session && t.minted == s.minted + 1 &&
            ReaderHolds(StreamOf(s, name).pc) == multiset{} &&
            LedgerOf(t) == if name == Stdout then l.(out := Id(s)) else l.(err := Id(s))
  {
    Refinement.SamePipeline(s, ReaderApply(s, name, Attribute));
  }

  lemma PostMoves(s: State, name: StreamName)
    requires ReaderEnabled(s, name, Post) && s.iopub.life.Alive?
    ensures var t, l := ReaderApply(s, name, Post), LedgerOf(s);
            t.session == s.session && t.minted == s.minted &&
            LedgerOf(t) == if name == Stdout then l.(pipeline := l.pipeline + l.out, out := multiset{})
                           else l.(pipeline := l.pipeline + l.err, err := multiset{})
  {
    OfferedPipeline(s, ReaderApply(s, name, Post), StreamOf(s, name).pc.pub);
  }

  lemma ReadMoves(s: State, name: StreamName, step: ReaderStep)
    requires ReaderEnabled(s, name, step) && (step.Read? || step.ReadEnd?)
    ensures SameIds(s, ReaderApply(s, name, step))
  {
    Refinement.SamePipeline(s, ReaderApply(s, name, step));
  }

  lemma PostAborts(s: State, name: StreamName)
    requires ReaderEnabled(s, name, Post) && s.iopub.life.Stopped?
    ensures SameIds(s, ReaderApply(s, name, Post))
  {
  }

  lemma AttributeKeepsIds(s: State, name: StreamName)
    requires IdsFit(s) && ReaderEnabled(s, name, Attribute)
    ensures IdsFit(ReaderApply(s, name, Attribute))
  {
    AttributeMoves(s, name);
    NumberedPlus(s.session, s.minted);
    TotalOfReader(LedgerOf(s), name, Id(s));
  }

  lemma PostKeepsIds(s: State, name: StreamName)
    requires IdsFit(s) && ReaderEnabled(s, name, Post)
    ensures IdsFit(ReaderApply(s, name, Post))
  {
    if s.iopub.life.Alive? {
      PostMoves(s, name);
      TotalOfPost(LedgerOf(s), name);
    } else {
      PostAborts(s, name);
    }
  }

  lemma ReaderKeepsIds(s: State, name: StreamName, step: ReaderStep)
    requires IdsFit(s) && ReaderEnabled(s, name, step)
    ensures IdsFit(ReaderApply(s, name, step))
  {
    match step
    case Attribute => AttributeKeepsIds(s, name);
    case Post => PostKeepsIds(s, name);
    case _ => ReadMoves(s, name, step);
  }

  lemma WriteMoves(s: State, step: Step)
    requires Enabled(s, step) && step.Write?
    ensures SameIds(s, Apply(s, step))
  {
    Refinement.SamePipeline(s, Apply(s, step));
  }

  lemma IdleMoves(s: State, step: Step)
    requires Enabled(s, step) && (step.HeartbeatDo? || step.Tick?)
    ensures SameIds(s, Apply(s, step))
  {
    Refinement.SamePipeline(s, Apply(s, step));
  }

  /** Every step of every task keeps ids unique. */
  lemma StepKeepsIds(s: State, step: Step)
    requires IdsFit(s) && Enabled(s, step)
    ensures IdsFit(Apply(s, step))
  {
    match step
    case ShellDo(a) => ShellKeepsIds(s, a);
    case IopubDo(a) => IopubMoves(s, a);
    case ControlDo(a) => ControlKeepsIds(s, a);
    case ReaderDo(name, a) => ReaderKeepsIds(s, name, a);
    case Write(_, _, _) => WriteMoves(s, step);
    case _ => IdleMoves(s, step);
  }
}
