/** What holds in every reachable state of the kernel: the protocol's promises. */
module Theorems {
  import opened Protocol
  import opened Session
  import opened Kernel
  import opened Refinement
  import opened Streams
  import opened Interrupts
  import opened Broadcasts
  import opened Identifiers
  import opened Controls
  import opened Envelopes
  import opened History
  import Decimal
  import Runs
  import Utf8

  // ----- blocks on the iopub socket -----

  lemma QuietFits(s: State, past: Past)
    requires Fits(s, past) && !IsBusy(s.shell.pc)
    ensures s.ctx == past.base && s.log.accepted == past.asked
    ensures Bares(Pipeline(s)) == past.said && Bared(s.log.replies) == past.answered
  {
    assert Bares(Pipeline(s)) + [] == Bares(Pipeline(s)) && past.said + [] == past.said;
    assert past.answered + [] == past.answered && past.asked + [] == past.asked;
  }

  /** Whenever no request is served, the kernel is exactly where the sequential history of its turns ends. */
  lemma ConcurrentIsSequential(s: State)
    requires Reachable(s) && !IsBusy(s.shell.pc)
    ensures s.ctx == After(s.initial, s.log.turns)
    ensures Bares(Pipeline(s)) == Transcript(s.initial, s.log.turns)
    ensures Bared(s.log.replies) == Replies(s.initial, s.log.turns)
    ensures s.log.accepted == Requests(s.log.turns)
  {
    Runs.AlwaysRefines(s);
    QuietFits(s, PastOf(s.initial, s.log.turns));
  }

  lemma {:induction false} BaresPrefix(a: seq<Pub>, b: seq<Pub>)
    ensures Bares(a) <= Bares(a + b)
    decreases |b|
  {
    if b == [] {
      assert a + b == a;
    } else {
      var c := b[..|b| - 1];
      BaresPrefix(a, c);
      BaresPlus(a + c, b[|b| - 1]);
      assert a + b == (a + c) + [b[|b| - 1]];
    }
  }

  /** The messages of the current turn that have entered the queue. */
  function Entered(s: State): seq<Bare<Iopub>> {
    var outs, held := CurrentOutputs(s, After(s.initial, s.log.turns)), Held(s.shell.pc);
    if |held| <= |outs| then outs[..|outs| - |held|] else []
  }

  lemma SplitHeld(a: seq<Bare<Iopub>>, held: seq<Bare<Iopub>>, t: seq<Bare<Iopub>>, outs: seq<Bare<Iopub>>)
    requires a + held == t + outs && |held| <= |outs|
    ensures a == t + outs[..|outs| - |held|]
  {
    assert a == (a + held)[..|a|];
    assert (t + outs)[..|a|] == t + outs[..|outs| - |held|];
  }

  /** The messages of the current turn, and the held one among them. */
  lemma CurrentMessages(s: State)
    requires Reachable(s)
    ensures var outs, held := CurrentOutputs(s, After(s.initial, s.log.turns)), Held(s.shell.pc);
            |held| <= |outs| && Bares(Pipeline(s)) + held == Transcript(s.initial, s.log.turns) + outs
    ensures Concluded(s.shell.pc) ==> !s.log.turn.Restarted?
  {
    Runs.AlwaysRefines(s);
  }

  lemma OutputsHaveNoIdle(base: Session, turn: Turn)
    ensures NoIdle(Outputs(base, turn))
  {
    OutputsAnswerTheirRequest(base, turn);
  }

  lemma NoIdleEntered(s: State)
    requires var outs := CurrentOutputs(s, After(s.initial, s.log.turns)); |Held(s.shell.pc)| <= |outs|
    ensures NoIdle(Entered(s))
  {
    var base, pc := After(s.initial, s.log.turns), s.shell.pc;
    if InEvaluation(pc) || pc.Rendering? {
      PrintedAnswersKonst(Begin(base, pc.m).konst.value, s.log.effects);
    } else if pc.Sending? && pc.next.ToListen? {
      BlockEndsIdle(base, s.log.turn);
    } else if Concluded(pc) {
      OutputsHaveNoIdle(base, s.log.turn);
    }
  }

  lemma EnteredHasNoIdle(s: State)
    requires Reachable(s)
    ensures Bares(Pipeline(s)) == Transcript(s.initial, s.log.turns) + Entered(s)
    ensures NoIdle(Entered(s))
  {
    CurrentMessages(s);
    SplitHeld(Bares(Pipeline(s)), Held(s.shell.pc), Transcript(s.initial, s.log.turns),
              CurrentOutputs(s, After(s.initial, s.log.turns)));
    NoIdleEntered(s);
  }

  lemma PublishedPrefix(s: State)
    ensures Bares(s.log.published) <= Bares(Pipeline(s))
  {
    var rest := Pipeline(s)[|s.log.published|..];
    assert Pipeline(s) == s.log.published + rest;
    BaresPrefix(s.log.published, rest);
  }

  /** Apart from streams, the iopub socket has carried nothing but the blocks of whole turns, back to back,
      and then part of one block: it starts with the busy status of the request being served and has no idle. */
  lemma PublishedInBlocks(s: State)
    requires Reachable(s)
    ensures Bares(s.log.published) <= Transcript(s.initial, s.log.turns) + Entered(s)
    ensures NoIdle(Entered(s))
    ensures Entered(s) != [] ==>
              IsBusy(s.shell.pc) && Entered(s)[0] == Bare([], Some(s.shell.pc.m.header), Status(true))
    ensures forall i :: 0 <= i < |Entered(s)| ==> Entered(s)[i].parentHeader == Some(s.shell.pc.m.header)
  {
    EnteredHasNoIdle(s);
    PublishedPrefix(s);
    if Entered(s) != [] {
      EnteredStartsBusy(s);
      EnteredAnswers(s);
    }
  }

  /** Everything that the current turn says so far answers its request. */
  lemma CurrentAnswers(s: State, base: Session)
    requires IsBusy(s.shell.pc) && (Concluded(s.shell.pc) ==> !s.log.turn.Restarted? && s.log.turn.m == s.shell.pc.m)
    ensures forall out :: out in CurrentOutputs(s, base) ==> out.parentHeader == Some(s.shell.pc.m.header)
  {
    var pc := s.shell.pc;
    if InEvaluation(pc) || pc.Rendering? {
      PrintedAnswersKonst(Begin(base, pc.m).konst.value, s.log.effects);
    } else if Concluded(pc) {
      OutputsAnswerTheirRequest(base, s.log.turn);
    }
  }

  lemma ConcludedTurnIsCurrent(s: State)
    requires Reachable(s) && Concluded(s.shell.pc)
    ensures !s.log.turn.Restarted? && s.log.turn.m == s.shell.pc.m
  {
    Runs.AlwaysRefines(s);
  }

  lemma EnteredAnswers(s: State)
    requires Reachable(s) && IsBusy(s.shell.pc)
    ensures forall i :: 0 <= i < |Entered(s)| ==> Entered(s)[i].parentHeader == Some(s.shell.pc.m.header)
  {
    var base := After(s.initial, s.log.turns);
    if Concluded(s.shell.pc) {
      ConcludedTurnIsCurrent(s);
    }
    CurrentAnswers(s, base);
    assert forall i :: 0 <= i < |Entered(s)| ==> Entered(s)[i] == CurrentOutputs(s, base)[i];
  }

  lemma EnteredStartsBusy(s: State)
    requires Reachable(s) && Entered(s) != []
    ensures IsBusy(s.shell.pc) && Entered(s)[0] == StatusOf(s.shell.pc.m, true)
  {
    Runs.AlwaysRefines(s);
  }

  /** An idle status on the iopub socket closes whole blocks. */
  lemma IdleClosesBlocks(s: State, i: nat) returns (k: nat)
    requires Reachable(s)
    requires i < |s.log.published| && s.log.published[i].content == Status(false)
    ensures 0 < k <= |s.log.turns| && !s.log.turns[k - 1].Restarted?
    ensures Strip(s.log.published[i]) == StatusOf(s.log.turns[k - 1].m, false)
    ensures Bares(s.log.published[..i + 1]) == Transcript(s.initial, s.log.turns[..k])
  {
    EnteredHasNoIdle(s);
    PublishedStretch(s, i);
    k := IdleEndsATurn(s.initial, s.log.turns, Entered(s), Bares(s.log.published[..i + 1]));
  }

  /** An idle status on the iopub socket closes whole blocks, and its request has been answered. */
  lemma IdleMeansAnswered(s: State, i: nat) returns (k: nat)
    requires Reachable(s)
    requires i < |s.log.published| && s.log.published[i].content == Status(false)
    ensures 0 < k <= |s.log.turns| && !s.log.turns[k - 1].Restarted?
    ensures s.log.published[i].parentHeader == Some(s.log.turns[k - 1].m.header)
    ensures Bares(s.log.published[..i + 1]) == Transcript(s.initial, s.log.turns[..k])
    ensures Replies(s.initial, s.log.turns[..k]) <= Bared(s.log.replies)
  {
    k := IdleClosesBlocks(s, i);
    RepliesOfFirst(s, k);
  }

  lemma RepliesOfFirst(s: State, k: nat)
    requires Reachable(s) && k <= |s.log.turns|
    ensures Replies(s.initial, s.log.turns[..k]) <= Bared(s.log.replies)
  {
    RepliesGrow(s.initial, s.log.turns, k);
    RepliesSent(s);
  }

  /** What was published up to a shell message is a stretch of the pipeline that ends with it. */
  lemma PublishedStretch(s: State, i: nat)
    requires i < |s.log.published| && !s.log.published[i].content.Stream?
    ensures var b := Bares(s.log.published[..i + 1]);
            b <= Bares(Pipeline(s)) && b != [] && b[|b| - 1] == Strip(s.log.published[i])
  {
    var p, upTo := s.log.published, s.log.published[..i + 1];
    assert upTo == p[..i] + [p[i]];
    BaresPlus(p[..i], p[i]);
    var rest := Pipeline(s)[i + 1..];
    assert Pipeline(s) == upTo + rest;
    BaresPrefix(upTo, rest);
  }

  lemma RepliesSent(s: State)
    requires Reachable(s)
    ensures Replies(s.initial, s.log.turns) <= Bared(s.log.replies)
  {
    Runs.AlwaysRefines(s);
  }

  lemma {:induction false} RepliesGrow(initial: seq<Decl>, turns: seq<Turn>, k: nat)
    requires k <= |turns|
    ensures Replies(initial, turns[..k]) <= Replies(initial, turns)
    decreases |turns|
  {
    if k == |turns| {
      assert turns[..k] == turns;
    } else {
      var before := turns[..|turns| - 1];
      RepliesGrow(initial, before, k);
      assert before[..k] == turns[..k];
    }
  }

  // ----- one reply for each request -----

  /** A request's type and that of its reply: the same stem, with `_request` and `_reply`. */
  ghost predicate SameStem(request: string, reply: string) {
    exists stem: string :: request == stem + "_request" && reply == stem + "_reply"
  }

  lemma Stems(stem: string)
    ensures SameStem(stem + "_request", stem + "_reply")
  {
  }

  /** The reply that was sent for an accepted request, if any. */
  ghost predicate Answered(s: State, i: nat)
    requires i < |s.log.accepted|
  {
    i < |s.log.replies| &&
    s.log.replies[i].zmqIdentities == s.log.accepted[i].zmqIdentities &&
    s.log.replies[i].parentHeader == Some(s.log.accepted[i].header) &&
    SameStem(s.log.accepted[i].header.msgType, s.log.replies[i].header.msgType) &&
    KindFits(s.log.accepted[i].content, s.log.replies[i].content)
  }

  /** What the type of a request says about its content. */
  predicate Announces(msgType: string, content: ShellRequest) {
    match content
    case Execute(_) => msgType == "execute_request"
    case IsComplete(_) => msgType == "is_complete_request"
    case KernelInfo => msgType == "kernel_info_request"
  }

  lemma ReplyStem(m: Request)
    requires Parsed(m)
    ensures Announces(m.header.msgType, m.content)
    ensures SameStem(m.header.msgType, TypeOfReply(m))
  {
    match m.content
    case Execute(_) => Stems("execute");
    case IsComplete(_) => Stems("is_complete");
    case KernelInfo => Stems("kernel_info");
  }

  /** All turns of the shell so far, with the current one once it has been replied to. */
  function RepliedTurns(s: State): seq<Turn> {
    s.log.turns + if HasReplied(s.shell.pc) then [s.log.turn] else []
  }

  /** The replies that were sent are those of the turns that were replied to. */
  lemma RepliesOfTurns(s: State)
    requires Reachable(s)
    ensures Bared(s.log.replies) == Replies(s.initial, RepliedTurns(s))
  {
    RepliesParts(s);
    AfterPlus(s.initial, s.log.turns, s.log.turn);
    assert s.log.turns + [] == s.log.turns;
    assert Replies(s.initial, s.log.turns) + [] == Replies(s.initial, s.log.turns);
  }

  lemma RepliesParts(s: State)
    requires Reachable(s)
    ensures Bared(s.log.replies) ==
            Replies(s.initial, s.log.turns) +
            if HasReplied(s.shell.pc) then ReplyTo(After(s.initial, s.log.turns), s.log.turn) else []
  {
    Runs.AlwaysRefines(s);
  }

  lemma {:induction false} OneMoreRequest(turns: seq<Turn>, turn: Turn, accepted: seq<Request>)
    requires TurnsFit(turns) && !turn.Restarted? && (turn.Executed? <==> turn.m.content.Execute?)
    requires accepted == Requests(turns) + [turn.m]
    ensures TurnsFit(turns + [turn]) && Requests(turns + [turn]) <= accepted
  {
    assert (turns + [turn])[..|turns|] == turns;
  }

  lemma {:induction false} RepliedRequests(s: State)
    requires Reachable(s) && HasReplied(s.shell.pc)
    ensures Requests(s.log.turns + [s.log.turn]) <= s.log.accepted && TurnsFit(s.log.turns + [s.log.turn])
  {
    RequestsParts(s);
    OneMoreRequest(s.log.turns, s.log.turn, s.log.accepted);
  }

  lemma {:induction false} CompletedRequests(s: State)
    requires Reachable(s)
    ensures Requests(s.log.turns) <= s.log.accepted && TurnsFit(s.log.turns)
  {
    RequestsParts(s);
  }

  lemma {:induction false} RequestsOfTurns(s: State)
    requires Reachable(s)
    ensures Requests(RepliedTurns(s)) <= s.log.accepted && TurnsFit(RepliedTurns(s))
  {
    if HasReplied(s.shell.pc) {
      RepliedRequests(s);
    } else {
      CompletedRequests(s);
      assert s.log.turns + [] == s.log.turns;
    }
  }

  lemma RequestsParts(s: State)
    requires Reachable(s)
    ensures s.log.accepted == Requests(s.log.turns) + if IsBusy(s.shell.pc) then [s.shell.pc.m] else []
    ensures TurnsFit(s.log.turns)
    ensures HasReplied(s.shell.pc) ==>
              !s.log.turn.Restarted? && s.log.turn.m == s.shell.pc.m &&
              (s.log.turn.Executed? <==> s.log.turn.m.content.Execute?)
  {
    Runs.AlwaysRefines(s);
    Runs.AlwaysTyped(s);
  }

  /** Every accepted request has the content its type announces and exactly one reply, sent before the next request
      is taken; the reply answers that request, and its type has the stem of the request's type. */
  lemma OneReplyEach(s: State, i: nat)
    requires Reachable(s) && i < |s.log.accepted|
    ensures |s.log.replies| <= |s.log.accepted| <= |s.log.replies| + 1
    ensures |s.log.accepted| == |s.log.replies| <==> !IsBusy(s.shell.pc) || HasReplied(s.shell.pc)
    ensures Announces(s.log.accepted[i].header.msgType, s.log.accepted[i].content)
    ensures i < |s.log.replies| ==> Answered(s, i)
  {
    Runs.AlwaysTyped(s);
    ReplyStem(s.log.accepted[i]);
    if i < |s.log.replies| {
      ReplyGoesBack(s, i);
    }
  }

  lemma ReplyGoesBack(s: State, i: nat)
    requires Reachable(s) && i < |s.log.replies| <= |s.log.accepted|
    ensures s.log.replies[i].zmqIdentities == s.log.accepted[i].zmqIdentities
    ensures s.log.replies[i].parentHeader == Some(s.log.accepted[i].header)
    ensures KindFits(s.log.accepted[i].content, s.log.replies[i].content)
  {
    RepliesOfTurns(s);
    RequestsOfTurns(s);
    RepliesAnswerRequests(s.initial, RepliedTurns(s));
    assert Bared(s.log.replies)[i] == Strip(s.log.replies[i]);
  }

  // ----- control -----

  /** What a control request asks for is what its reply is; a shutdown's reply repeats the restart flag. */
  predicate ControlKindFits(request: ControlRequest, reply: ControlReply) {
    match request
    case ControlKernelInfo => reply == ControlKernelInfoReply
    case Shutdown(restart) => reply == ShutdownReply(restart)
    case Interrupt => reply == InterruptReply
  }

  /** Control answers one request after the other; each reply goes back to its request, is of the kind asked for,
      and its type has the stem of the request's type. */
  lemma OneControlReplyEach(s: State, i: nat)
    requires Reachable(s) && i < |s.log.taken|
    ensures |s.log.controlReplies| <= |s.log.taken| <= |s.log.controlReplies| + 1
    ensures |s.log.taken| == |s.log.controlReplies| <==> s.control.Waiting? || s.control.Closed?
    ensures i < |s.log.controlReplies| ==>
              var c, reply := s.log.taken[i], s.log.controlReplies[i];
              reply.zmqIdentities == c.zmqIdentities && reply.parentHeader == Some(c.header) &&
              ControlKindFits(c.content, reply.content) && SameStem(c.header.msgType, reply.header.msgType)
  {
    Runs.AlwaysControls(s);
    if i < |s.log.controlReplies| {
      ControlStem(s.log.taken[i], s.log.controlReplies[i]);
    }
  }

  lemma ControlStem(c: Control, reply: ControlAnswer)
    requires AnswersControl(c, reply)
    ensures SameStem(c.header.msgType, reply.header.msgType) && ControlKindFits(c.content, reply.content)
  {
    match c.content
    case ControlKernelInfo => Stems("kernel_info");
    case Shutdown(_) => Stems("shutdown");
    case Interrupt => Stems("interrupt");
  }

  /** What is broadcast is what the shutdown requests ask for, in order. Nothing is taken behind a shutdown without
      restart, and the task is over exactly when one was answered. */
  lemma BroadcastsAreRequests(s: State)
    requires Reachable(s)
    ensures s.bus == Flags(s.log.taken)
    ensures forall i :: 0 <= i < |s.log.taken| && s.log.taken[i].content == Shutdown(false) ==> i == |s.log.taken| - 1
    ensures s.control.Closed? <==>
              exists i :: 0 <= i < |s.log.controlReplies| && s.log.controlReplies[i].content == ShutdownReply(false)
  {
    Runs.AlwaysControls(s);
    ClosedIffAnswered(s);
  }

  lemma ClosedIffAnswered(s: State)
    requires ControlsFit(s)
    ensures s.control.Closed? <==>
              exists i :: 0 <= i < |s.log.controlReplies| && s.log.controlReplies[i].content == ShutdownReply(false)
  {
    var taken, replies := s.log.taken, s.log.controlReplies;
    if s.control.Closed? {
      assert AnswersControl(taken[|taken| - 1], replies[|taken| - 1]);
    }
    if i :| 0 <= i < |replies| && replies[i].content == ShutdownReply(false) {
      assert AnswersControl(taken[i], replies[i]);
      assert taken[i].content == Shutdown(false);
    }
  }

  // ----- envelopes -----

  /** The id of a message the kernel minted: its session and a number below the counter. */
  ghost predicate IdFits(id: string, session: string, minted: nat) {
    exists n: nat :: n < minted && id == session + ":" + Decimal.Print(n)
  }

  lemma {:induction false} NumberedIds(session: string, n: nat, id: string)
    requires id in Numbered(session, n)
    ensures IdFits(id, session, n)
  {
    if id in Numbered(session, n - 1) {
      NumberedIds(session, n - 1, id);
    } else {
      assert id == session + ":" + Decimal.Print(n - 1);
    }
  }

  lemma SentIsNumbered(s: State, i: nat)
    requires Reachable(s) && i < |Sent(s)|
    ensures IdFits(Sent(s)[i], s.session, s.minted)
  {
    Runs.AlwaysIds(s);
    assert Sent(s)[i] in multiset(Sent(s));
    assert multiset(Sent(s)) ==
           IdsOf(Pipeline(s)) + IdsOf(s.log.replies) + IdsOf(s.log.controlReplies);
    NumberedIds(s.session, s.minted, Sent(s)[i]);
  }

  /** Every iopub message names session, user and protocol version, has a numbered id, no metadata and no buffers,
      and its type says what it holds. */
  lemma PubsAreTyped(s: State, i: nat)
    requires Reachable(s) && i < |Pipeline(s)|
    ensures var pub := Pipeline(s)[i];
            && pub.header == Header(pub.header.msgId, s.session, "nu_kernel", pub.header.date, pub.header.msgType, "5.4")
            && IdFits(pub.header.msgId, s.session, s.minted)
            && pub.metadata == "{}" && pub.buffers == []
            && pub.header.msgType == match pub.content
                 case Status(_) => "status"
                 case DisplayData(_) => "display_data"
                 case ExecuteResult(_, _) => "execute_result"
                 case Stream(_, _) => "stream"
    ensures Pipeline(s)[i].content.Status? ==> Pipeline(s)[i].zmqIdentities == []
  {
    Runs.AlwaysEnvelopes(s);
    SentIsNumbered(s, i);
    assert PubFits(Pipeline(s)[i], s.session);
  }

  /** So do all replies, on either socket. */
  lemma RepliesAreStamped(s: State)
    requires Reachable(s)
    ensures AllFromKernel(s.log.replies, s.session) && AllFromKernel(s.log.controlReplies, s.session)
    ensures forall i :: 0 <= i < |s.log.replies| ==> IdFits(s.log.replies[i].header.msgId, s.session, s.minted)
    ensures forall i :: 0 <= i < |s.log.controlReplies| ==>
              IdFits(s.log.controlReplies[i].header.msgId, s.session, s.minted)
  {
    Runs.AlwaysEnvelopes(s);
    var n := |Pipeline(s)|;
    forall i | 0 <= i < |s.log.replies| ensures IdFits(s.log.replies[i].header.msgId, s.session, s.minted) {
      SentIsNumbered(s, n + i);
    }
    forall i | 0 <= i < |s.log.controlReplies|
      ensures IdFits(s.log.controlReplies[i].header.msgId, s.session, s.minted)
    {
      SentIsNumbered(s, n + |s.log.replies| + i);
    }
  }

  /** At most one message waits in the queue between the producers and the iopub task. */
  lemma QueueHoldsOne(s: State)
    requires Reachable(s)
    ensures |s.queue| <= 1
  {
    Runs.AlwaysEnvelopes(s);
  }

  // ----- execution counts -----

  lemma {:induction false} TurnsCount(initial: seq<Decl>, turns: seq<Turn>, counts: seq<nat>)
    requires counts == OkCounts(Replies(initial, turns))
    ensures counts == FromOne(|counts|)
  {
    OkCountsAreConsecutive(initial, turns);
    LengthOfCounts(counts, After(initial, turns).cell.execution);
  }

  /** Over the whole process the successful execute replies carry exactly 1, 2, 3, ... */
  lemma {:induction false} CountsOfReplies(s: State)
    requires Reachable(s)
    ensures var counts := OkCounts(Bared(s.log.replies)); counts == FromOne(|counts|)
  {
    RepliesOfTurns(s);
    TurnsCount(s.initial, RepliedTurns(s), OkCounts(Bared(s.log.replies)));
  }

  /** Each error reply carries one more than the number of successful replies before it. */
  lemma CountsOfErrors(s: State, i: nat)
    requires Reachable(s) && i < |s.log.replies| && s.log.replies[i].content.ErrorReply?
    ensures s.log.replies[i].content.errorCount == Some(|OkCounts(Bared(s.log.replies[..i]))| + 1)
  {
    RepliesOfTurns(s);
    ErrorCounts(s.initial, RepliedTurns(s), i);
    assert Bared(s.log.replies[..i]) == Bared(s.log.replies)[..i];
  }

  // ----- interrupts -----

  /** The flag is up only while control polls for an interrupt it has not answered yet. */
  lemma FlagOnlyWhilePolling(s: State)
    requires Reachable(s) && s.interrupt
    ensures s.control.Polling? && s.control.c.content.Interrupt?
    ensures |s.log.stores| == CountInterrupts(s.log.controlReplies) + 1
  {
    Runs.AlwaysHandshake(s);
  }

  /** The i-th interrupt reply belongs to its own execution, which ended after that interrupt raised the
      flag and before the next one did. */
  lemma InterruptsMatchExecutions(s: State, i: nat)
    requires Reachable(s) && i < CountInterrupts(s.log.controlReplies)
    ensures i < |s.log.clears| <= |s.log.stores|
    ensures s.log.stores[i] <= s.log.clears[i] < s.log.completed <= Executions(s.log.turns) + 1
    ensures forall j :: i < j < |s.log.clears| ==> s.log.clears[i] < s.log.stores[j] <= s.log.clears[j]
  {
    Runs.AlwaysHandshake(s);
  }

  /** Replies to interrupts never outnumber the executions that ended. */
  lemma InterruptsAreBounded(s: State)
    requires Reachable(s)
    ensures CountInterrupts(s.log.controlReplies) <= |s.log.clears| <= s.log.completed
  {
    Runs.AlwaysHandshake(s);
    IncreasingIsBounded(s.log.clears, s.log.stores, s.log.completed);
  }

  lemma {:induction false} IncreasingIsBounded(clears: seq<nat>, stores: seq<nat>, bound: nat)
    requires Handshake(stores, clears, bound)
    ensures |clears| <= bound
    decreases |clears|
  {
    if clears != [] {
      var last := |clears| - 1;
      IncreasingIsBounded(clears[..last], stores[..last], clears[last]);
    }
  }

  // ----- shutdown -----

  /** A loop that left its receiver behind was told to stop, or lost a broadcast that came too soon. */
  predicate StoppedFor(s: State, life: Life, seen: nat) {
    life.Stopped? ==>
      (exists i :: 0 <= i < |s.bus| && !s.bus[i]) ||
      (life.why == Lagged && seen < |s.bus|)
  }

  lemma LoopsEndForAReason(s: State)
    requires Reachable(s)
    ensures StoppedFor(s, s.heartbeat.life, s.heartbeat.seen)
    ensures StoppedFor(s, s.iopub.life, s.iopub.seen)
    ensures StoppedFor(s, ShellLife(s.shell.pc), s.shell.seen)
  {
    Runs.AlwaysBroadcasts(s);
  }

  /** The shell has been reset once for each broadcast it received before it stopped, all of them restarts. */
  lemma OneResetPerRestart(s: State)
    requires Reachable(s)
    ensures !s.shell.pc.Ended? ==>
              Restarts(s.log.turns) == s.shell.seen <= |s.bus| &&
              forall i :: 0 <= i < s.shell.seen ==> s.bus[i]
    ensures s.shell.pc.Ended? ==> Restarts(s.log.turns) == s.shell.seen - 1
  {
    Runs.AlwaysBroadcasts(s);
  }

  // ----- message ids -----

  /** The ids of everything that was sent or is on its way, by all tasks. */
  function Sent(s: State): seq<string> {
    Names(Pipeline(s)) + Names(s.log.replies) + Names(s.log.controlReplies)
  }

  lemma SentAtMostOnce(s: State, id: string)
    requires Reachable(s)
    ensures multiset(Sent(s))[id] <= 1
  {
    Runs.AlwaysIds(s);
    NumberedOnce(s.session, s.minted, id);
    assert multiset(Sent(s)) ==
           IdsOf(Pipeline(s)) + IdsOf(s.log.replies) + IdsOf(s.log.controlReplies);
  }

  /** No two messages of the process share an id, whichever sockets they went to. */
  lemma IdsAreDistinct(s: State, i: nat, j: nat)
    requires Reachable(s) && i < j < |Sent(s)|
    ensures Sent(s)[i] != Sent(s)[j]
  {
    SentAtMostOnce(s, Sent(s)[i]);
    if Sent(s)[i] == Sent(s)[j] {
      TwiceInMultiset(Sent(s), i, j);
    }
  }

  lemma TwiceInMultiset(ids: seq<string>, i: nat, j: nat)
    requires i < j < |ids| && ids[i] == ids[j]
    ensures multiset(ids)[ids[i]] >= 2
  {
    assert ids == ids[..j] + [ids[j]] + ids[j + 1..];
    assert ids[i] in ids[..j];
  }

  // ----- streams -----

  /** Each text of a stream carries one pair set by one `update_reply`, never a later cell's bytes,
      and the requests it names never go back. */
  lemma StreamAttribution(s: State, name: StreamName, i: nat)
    requires Reachable(s)
    requires i < |Texts(Pipeline(s), name)|
    ensures var pub, chunks := Texts(Pipeline(s), name)[i], StreamOf(s, name).chunks;
            i < |chunks| && pub == chunks[i].pub &&
            Attributes(pub, chunks[i].bytes, chunks[i].cell, s.log.executes, name) &&
            forall j :: i <= j < |chunks| ==> chunks[i].cell <= chunks[j].cell
  {
    Runs.AlwaysKept(s, name);
  }

  lemma StreamConservation(s: State, name: StreamName)
    requires Reachable(s)
    ensures var t := StreamOf(s, name);
            t.written == Joined(t.chunks) + InHand(t.pc) + t.buf + t.unread &&
            |t.buf| % 8192 == 0 &&
            forall i :: 0 <= i < |t.chunks| && !s.shell.pc.Ended? ==> |t.chunks[i].bytes| % 8192 != 0
  {
    Runs.AlwaysKept(s, name);
  }

  /** The texts of a stream, put together. */
  function Together(chunks: seq<Chunk>): string
    requires forall i :: 0 <= i < |chunks| ==> chunks[i].pub.content.Stream?
  {
    if chunks == [] then ""
    else Together(chunks[..|chunks| - 1]) + chunks[|chunks| - 1].pub.content.text
  }

  lemma UntagPlus(a: seq<Tagged>, b: seq<Tagged>)
    ensures Untag(a + b) == Untag(a) + Untag(b)
  {
  }

  lemma {:induction false} TogetherDecodes(chunks: seq<Chunk>)
    requires forall i :: 0 <= i < |chunks| ==>
               chunks[i].pub.content.Stream? && Utf8.Decode(Untag(chunks[i].bytes)) == Some(chunks[i].pub.content.text)
    ensures Utf8.Decode(Untag(Joined(chunks))) == Some(Together(chunks))
  {
    if chunks != [] {
      var before, last := chunks[..|chunks| - 1], chunks[|chunks| - 1];
      TogetherDecodes(before);
      UntagPlus(Joined(before), last.bytes);
      Utf8.DecodeAppend(Untag(Joined(before)), Untag(last.bytes));
    }
  }

  /** The texts of a stream concatenate to the decoding of the bytes they were cut from. */
  lemma StreamTexts(s: State, name: StreamName)
    requires Reachable(s)
    ensures var t := StreamOf(s, name);
            (forall i :: 0 <= i < |t.chunks| ==> t.chunks[i].pub.content.Stream?) &&
            Utf8.Decode(Untag(Joined(t.chunks))) == Some(Together(t.chunks))
  {
    Runs.AlwaysKept(s, name);
    TogetherDecodes(StreamOf(s, name).chunks);
  }
}
