/** What every history of turns keeps: counts, cell names, engine, external commands, filter. */
module History {
  import opened Protocol
  import opened Session
  import Decimal

  lemma AfterPlus(initial: seq<Decl>, turns: seq<Turn>, turn: Turn)
    ensures After(initial, turns + [turn]) == Serve(After(initial, turns), turn, initial)
    ensures Transcript(initial, turns + [turn]) == Transcript(initial, turns) + Block(After(initial, turns), turn)
    ensures Replies(initial, turns + [turn]) == Replies(initial, turns) + ReplyTo(After(initial, turns), turn)
    ensures Requests(turns + [turn]) == Requests(turns) + if turn.Restarted? then [] else [turn.m]
  {
    assert (turns + [turn])[..|turns|] == turns;
  }

  // ----- outputs belong to their request -----

  lemma {:induction false} PrintedAnswersKonst(konst: Konst, effects: seq<Effect>)
    ensures forall out :: out in AllPrinted(konst, effects) ==>
              out.zmqIdentities == konst.request.zmqIdentities &&
              out.parentHeader == Some(konst.request.header) &&
              out.content.DisplayData?
  {
    if effects != [] {
      PrintedAnswersKonst(konst, effects[..|effects| - 1]);
    }
  }

  /** Every message of a turn names the turn's request as its parent; a result carries the reply's count. */
  lemma OutputsAnswerTheirRequest(s: Session, turn: Turn)
    ensures forall out :: out in Outputs(s, turn) ==>
              !turn.Restarted? &&
              out.zmqIdentities == turn.m.zmqIdentities &&
              out.parentHeader == Some(turn.m.header) &&
              (out.content.DisplayData? || out.content.ExecuteResult?)
    ensures forall out :: out in Outputs(s, turn) && out.content.ExecuteResult? ==>
              ReplyContent(s, turn) == Some(ExecuteReply(out.content.executionCount))
  {
    if turn.Executed? && turn.ev.Ran? {
      PrintedAnswersKonst(Begin(s, turn.m).konst.value, turn.ev.effects);
    }
  }

  // ----- one reply for each request -----

  /** The content of a reply is of the kind its request asks for. */
  predicate KindFits(request: ShellRequest, reply: ShellReply) {
    match request
    case KernelInfo => reply.KernelInfoReply?
    case IsComplete(_) => reply.IsCompleteReply?
    case Execute(_) => reply.ExecuteReply? || reply.ErrorReply?
  }

  /** The turns handle requests as the shell dispatches them. */
  predicate TurnsFit(turns: seq<Turn>) {
    forall i :: 0 <= i < |turns| && !turns[i].Restarted? ==> (turns[i].Executed? <==> turns[i].m.content.Execute?)
  }

  /** The i-th reply answers the i-th request: same identities, its header as parent, and its kind. */
  predicate Answers(replies: seq<Bare<ShellReply>>, requests: seq<Request>) {
    |replies| == |requests| &&
    forall i :: 0 <= i < |replies| ==>
      replies[i].zmqIdentities == requests[i].zmqIdentities &&
      replies[i].parentHeader == Some(requests[i].header) &&
      KindFits(requests[i].content, replies[i].content)
  }

  lemma ReplyAnswers(s: Session, turn: Turn)
    requires !turn.Restarted? && (turn.Executed? <==> turn.m.content.Execute?)
    ensures Answers(ReplyTo(s, turn), [turn.m])
  {
  }

  lemma MoreAnswers(replies: seq<Bare<ShellReply>>, requests: seq<Request>,
                    more: seq<Bare<ShellReply>>, asked: seq<Request>)
    requires Answers(replies, requests) && Answers(more, asked)
    ensures Answers(replies + more, requests + asked)
  {
  }

  lemma {:induction false} RepliesAnswerRequests(initial: seq<Decl>, turns: seq<Turn>)
    requires TurnsFit(turns)
    ensures Answers(Replies(initial, turns), Requests(turns))
  {
    if turns != [] {
      var n := |turns| - 1;
      RepliesAnswerRequests(initial, turns[..n]);
      if !turns[n].Restarted? {
        ReplyAnswers(After(initial, turns[..n]), turns[n]);
        MoreAnswers(Replies(initial, turns[..n]), Requests(turns[..n]),
                    ReplyTo(After(initial, turns[..n]), turns[n]), [turns[n].m]);
      }
    }
  }

  // ----- blocks -----

  predicate IsIdle(out: Bare<Iopub>) {
    out.content == Status(false)
  }

  predicate NoIdle(outs: seq<Bare<Iopub>>) {
    forall i :: 0 <= i < |outs| ==> !IsIdle(outs[i])
  }

  predicate IdleOnlyLast(outs: seq<Bare<Iopub>>) {
    forall i :: 0 <= i < |outs| && IsIdle(outs[i]) ==> i == |outs| - 1
  }

  /** The idle status of a turn is the last of its messages, and the only one. */
  lemma BlockEndsIdle(s: Session, turn: Turn)
    ensures var b := Block(s, turn);
            IdleOnlyLast(b) &&
            (b != [] ==> !turn.Restarted? && b[|b| - 1] == StatusOf(turn.m, false))
  {
    OutputsAnswerTheirRequest(s, turn);
  }

  /** If only the last message of `b` is idle, a stretch past `t` that ends idle ends with `b`. */
  lemma EndsWithBlock(t: seq<Bare<Iopub>>, b: seq<Bare<Iopub>>, rest: seq<Bare<Iopub>>, stretch: seq<Bare<Iopub>>)
    requires |t| < |stretch| && stretch <= t + b + rest && IsIdle(stretch[|stretch| - 1])
    requires NoIdle(rest) && IdleOnlyLast(b)
    ensures b != [] && stretch == t + b && stretch[|stretch| - 1] == b[|b| - 1]
  {
    assert stretch[|stretch| - 1] == (t + b + rest)[|stretch| - 1];
  }

  lemma NoIdleBeforeTurns(t: seq<Bare<Iopub>>, rest: seq<Bare<Iopub>>, stretch: seq<Bare<Iopub>>)
    requires stretch != [] && stretch <= t + rest && IsIdle(stretch[|stretch| - 1]) && NoIdle(rest)
    ensures t != []
  {
    assert stretch[|stretch| - 1] == (t + rest)[|stretch| - 1];
  }

  lemma PrefixOfFirst(stretch: seq<Bare<Iopub>>, t: seq<Bare<Iopub>>, b: seq<Bare<Iopub>>, rest: seq<Bare<Iopub>>)
    requires stretch <= t + b + rest && |stretch| <= |t|
    ensures stretch <= t + []
  {
    assert stretch == (t + b + rest)[..|stretch|];
  }

  lemma {:induction false} IdleEndsTheLastTurn(initial: seq<Decl>, turns: seq<Turn>, rest: seq<Bare<Iopub>>, stretch: seq<Bare<Iopub>>)
    requires turns != [] && |Transcript(initial, turns[..|turns| - 1])| < |stretch|
    requires stretch <= Transcript(initial, turns) + rest
    requires IsIdle(stretch[|stretch| - 1]) && NoIdle(rest)
    ensures !turns[|turns| - 1].Restarted? && stretch == Transcript(initial, turns)
    ensures stretch[|stretch| - 1] == StatusOf(turns[|turns| - 1].m, false)
  {
    var before, turn := turns[..|turns| - 1], turns[|turns| - 1];
    BlockEndsIdle(After(initial, before), turn);
    EndsWithBlock(Transcript(initial, before), Block(After(initial, before), turn), rest, stretch);
  }

  lemma FrontOfFront(turns: seq<Turn>, k: nat)
    requires turns != [] && k <= |turns| - 1
    ensures turns[..|turns| - 1][..k] == turns[..k]
  {
  }

  lemma AllOf(turns: seq<Turn>)
    ensures turns[..|turns|] == turns
  {
  }

  /** A stretch of the transcript that ends with an idle status is a sequence of whole turns. */
  lemma {:induction false} IdleEndsATurn(initial: seq<Decl>, turns: seq<Turn>, rest: seq<Bare<Iopub>>,
                                         stretch: seq<Bare<Iopub>>) returns (k: nat)
    requires stretch != [] && stretch <= Transcript(initial, turns) + rest
    requires IsIdle(stretch[|stretch| - 1]) && NoIdle(rest)
    ensures 0 < k <= |turns| && !turns[k - 1].Restarted?
    ensures stretch == Transcript(initial, turns[..k])
    ensures stretch[|stretch| - 1] == StatusOf(turns[k - 1].m, false)
    decreases |turns|
  {
    NoIdleBeforeTurns(Transcript(initial, turns), rest, stretch);
    var before := turns[..|turns| - 1];
    var t, b := Transcript(initial, before), Block(After(initial, before), turns[|turns| - 1]);
    if |stretch| <= |t| {
      PrefixOfFirst(stretch, t, b, rest);
      k := IdleEndsATurn(initial, before, [], stretch);
      FrontOfFront(turns, k);
    } else {
      IdleEndsTheLastTurn(initial, turns, rest, stretch);
      k := |turns|;
      AllOf(turns);
    }
  }

  // ----- execution counts -----

  /** The counts that the successful execute replies carry. */
  function OkCounts(replies: seq<Bare<ShellReply>>): seq<nat> {
    if replies == [] then []
    else
      var last := replies[|replies| - 1].content;
      OkCounts(replies[..|replies| - 1]) + if last.ExecuteReply? then [last.executionCount] else []
  }

  function FromOne(n: nat): seq<nat> {
    seq(n, i requires 0 <= i < n => i + 1)
  }

  lemma OkCountsPlus(replies: seq<Bare<ShellReply>>, reply: Bare<ShellReply>, n: nat)
    requires OkCounts(replies) == FromOne(n)
    requires reply.content.ExecuteReply? ==> reply.content.executionCount == n + 1
    ensures OkCounts(replies + [reply]) == FromOne(if reply.content.ExecuteReply? then n + 1 else n)
  {
    assert (replies + [reply])[..|replies|] == replies;
    assert FromOne(n + 1) == FromOne(n) + [n + 1];
  }

  /** The counter moves with the successful replies, which carry its value before the move. */
  lemma CounterFollowsReplies(s: Session, turn: Turn, initial: seq<Decl>)
    ensures var content := ReplyContent(s, turn);
            if content.Some? && content.value.ExecuteReply?
            then content.value.executionCount == s.cell.execution &&
                 Serve(s, turn, initial).cell == Cell(s.cell.execution + 1, 1)
            else Serve(s, turn, initial).cell.execution == s.cell.execution
  {
  }

  /** A counter that is one ahead of the successful counts stays so over a turn. */
  lemma TurnCounts(s: Session, turn: Turn, initial: seq<Decl>, replies: seq<Bare<ShellReply>>, n: nat)
    requires OkCounts(replies) == FromOne(n) && s.cell.execution == n + 1
    ensures var next := Serve(s, turn, initial).cell.execution;
            next >= 1 && OkCounts(replies + ReplyTo(s, turn)) == FromOne(next - 1)
  {
    CounterFollowsReplies(s, turn, initial);
    if turn.Restarted? {
      assert replies + [] == replies;
    } else {
      OkCountsPlus(replies, ReplyTo(s, turn)[0], n);
    }
  }

  /** Over a whole process, restarts included, the successful replies carry exactly 1, 2, 3, ..., and the
      counter is one ahead of them. */
  lemma {:induction false} OkCountsAreConsecutive(initial: seq<Decl>, turns: seq<Turn>)
    ensures var next := After(initial, turns).cell.execution;
            next >= 1 && OkCounts(Replies(initial, turns)) == FromOne(next - 1)
  {
    if turns != [] {
      var n := |turns| - 1;
      var s, replies := After(initial, turns[..n]), Replies(initial, turns[..n]);
      OkCountsAreConsecutive(initial, turns[..n]);
      TurnCounts(s, turns[n], initial, replies, s.cell.execution - 1);
    }
  }

  lemma LengthOfCounts(counts: seq<nat>, next: nat)
    requires next >= 1 && counts == FromOne(next - 1)
    ensures counts == FromOne(|counts|) && next == |counts| + 1
  {
  }

  lemma ErrorCarriesCounter(s: Session, turn: Turn)
    requires ReplyTo(s, turn) != [] && ReplyTo(s, turn)[0].content.ErrorReply?
    ensures ReplyTo(s, turn)[0].content.errorCount == Some(s.cell.execution)
  {
  }

  lemma {:induction false} NextErrorCounts(initial: seq<Decl>, before: seq<Turn>, turn: Turn)
    requires ReplyTo(After(initial, before), turn) != []
    requires ReplyTo(After(initial, before), turn)[0].content.ErrorReply?
    ensures ReplyTo(After(initial, before), turn)[0].content.errorCount
            == Some(|OkCounts(Replies(initial, before))| + 1)
  {
    var s := After(initial, before);
    ErrorCarriesCounter(s, turn);
    OkCountsAreConsecutive(initial, before);
    LengthOfCounts(OkCounts(Replies(initial, before)), s.cell.execution);
  }

  /** Entry `i` of two lists put together, and what precedes it. */
  lemma EntryOfSum(a: seq<Bare<ShellReply>>, b: seq<Bare<ShellReply>>, i: nat)
    requires i < |a + b| && |b| <= 1
    ensures if i < |a| then (a + b)[..i] == a[..i] && (a + b)[i] == a[i] else (a + b)[..i] == a && (a + b)[i] == b[0]
  {
  }

  /** Each error reply carries one more than the number of earlier successes. */
  lemma {:induction false} ErrorCounts(initial: seq<Decl>, turns: seq<Turn>, i: nat)
    requires i < |Replies(initial, turns)| && Replies(initial, turns)[i].content.ErrorReply?
    ensures Replies(initial, turns)[i].content.errorCount ==
            Some(|OkCounts(Replies(initial, turns)[..i])| + 1)
  {
    var before, turn := turns[..|turns| - 1], turns[|turns| - 1];
    EntryOfSum(Replies(initial, before), ReplyTo(After(initial, before), turn), i);
    if i < |Replies(initial, before)| {
      ErrorCounts(initial, before, i);
    } else {
      NextErrorCounts(initial, before, turn);
    }
  }

  // ----- cell names -----

  /** Lexicographic order on (execution, retry). */
  predicate Below(a: Cell, b: Cell) {
    a.execution < b.execution || (a.execution == b.execution && a.retry < b.retry)
  }

  lemma {:induction false} CellsGrow(initial: seq<Decl>, turns: seq<Turn>, i: nat)
    requires i <= |turns|
    ensures var a, b := After(initial, turns[..i]).cell, After(initial, turns).cell;
            a == b || Below(a, b)
    decreases |turns|
  {
    if i < |turns| {
      var before := turns[..|turns| - 1];
      assert before[..i] == turns[..i];
      CellsGrow(initial, before, i);
    } else {
      assert turns[..i] == turns;
    }
  }

  /** The name that turn i gives to its cell. */
  function NameAt(initial: seq<Decl>, turns: seq<Turn>, i: nat): string
    requires i < |turns| && turns[i].Executed?
  {
    Begin(After(initial, turns[..i]), turns[i].m).konst.value.cellName
  }

  /** Names never repeat: a later cell is named from a later (execution, retry) pair. */
  lemma CellNamesNeverRepeat(initial: seq<Decl>, turns: seq<Turn>, i: nat, j: nat)
    requires i < j < |turns| && turns[i].Executed? && turns[j].Executed?
    ensures Below(After(initial, turns[..i]).cell, After(initial, turns[..j]).cell)
    ensures NameAt(initial, turns, i) != NameAt(initial, turns, j)
  {
    var a, b := After(initial, turns[..i]).cell, After(initial, turns[..j]).cell;
    var upTo := turns[..j][..i + 1];
    assert upTo[..i] == turns[..i] && upTo[i] == turns[i];
    assert Below(a, After(initial, upTo).cell);
    CellsGrow(initial, turns[..j], i + 1);
    if NameAt(initial, turns, i) == NameAt(initial, turns, j) {
      Decimal.CellNameInjective(a.execution, a.retry, b.execution, b.retry);
    }
  }

  // ----- external commands -----

  predicate Enables(turn: Turn) {
    turn.Executed? && turn.ev.Ran? && EnableExternal in turn.ev.effects
  }

  predicate EnabledIn(turns: seq<Turn>) {
    exists e :: 0 <= e < |turns| && Enables(turns[e])
  }

  /** Turn i is the first cell after the one that enabled external commands. */
  predicate AddsExternal(turns: seq<Turn>, i: nat)
    requires i < |turns|
  {
    turns[i].Executed? && EnabledIn(turns[..i]) &&
    forall b :: 0 <= b < i && turns[b].Executed? ==> !EnabledIn(turns[..b])
  }

  predicate AddedIn(turns: seq<Turn>) {
    exists i :: 0 <= i < |turns| && AddsExternal(turns, i)
  }

  lemma {:induction false} PlayExternal(s: Session, effects: seq<Effect>)
    ensures Play(s, effects).external == if EnableExternal in effects then Raise(s.external) else s.external
  {
    if effects != [] {
      var init, last := effects[..|effects| - 1], effects[|effects| - 1];
      PlayExternal(s, init);
      assert effects == init + [last];
    }
  }

  lemma AddsExternalInPrefix(turns: seq<Turn>, n: nat, i: nat)
    requires i < n <= |turns|
    ensures AddsExternal(turns[..n], i) <==> AddsExternal(turns, i)
  {
    assert turns[..n][..i] == turns[..i];
    assert forall b :: 0 <= b < i ==> turns[..n][..b] == turns[..b];
  }

  lemma EnabledInPrefix(turns: seq<Turn>, n: nat)
    requires n <= |turns| && EnabledIn(turns[..n])
    ensures EnabledIn(turns)
  {
    var e :| 0 <= e < n && Enables(turns[..n][e]);
    assert Enables(turns[e]);
  }

  lemma AddedInPrefix(turns: seq<Turn>)
    requires turns != []
    ensures AddedIn(turns) <==> AddedIn(turns[..|turns| - 1]) || AddsExternal(turns, |turns| - 1)
  {
    var n := |turns| - 1;
    forall i: nat | i < n
      ensures AddsExternal(turns[..n], i) <==> AddsExternal(turns, i)
    {
      AddsExternalInPrefix(turns, n, i);
    }
    if AddedIn(turns) {
      var i :| 0 <= i < |turns| && AddsExternal(turns, i);
      assert i < n ==> AddsExternal(turns[..n], i);
    }
    if AddedIn(turns[..n]) {
      var i :| 0 <= i < n && AddsExternal(turns[..n], i);
      assert AddsExternal(turns, i);
    }
  }

  lemma EnabledInLast(turns: seq<Turn>)
    requires turns != []
    ensures EnabledIn(turns) <==> EnabledIn(turns[..|turns| - 1]) || Enables(turns[|turns| - 1])
  {
    var n := |turns| - 1;
    if EnabledIn(turns) {
      var e :| 0 <= e < |turns| && Enables(turns[e]);
      assert e < n ==> Enables(turns[..n][e]);
    }
    if EnabledIn(turns[..n]) {
      EnabledInPrefix(turns, n);
    }
  }

  /** Some cell ran after the enabling one exactly when one was the first to do so. */
  lemma {:induction false} SomeCellIsFirst(turns: seq<Turn>, b: nat)
    requires b < |turns| && turns[b].Executed? && EnabledIn(turns[..b])
    ensures AddedIn(turns)
    decreases b
  {
    if c :| 0 <= c < b && turns[c].Executed? && EnabledIn(turns[..c]) {
      SomeCellIsFirst(turns, c);
    } else {
      assert AddsExternal(turns, b);
    }
  }

  lemma FirstIsFirst(turns: seq<Turn>, n: nat)
    requires n < |turns| && AddsExternal(turns, n)
    ensures !AddedIn(turns[..n])
  {
    forall i | 0 <= i < n
      ensures !AddsExternal(turns[..n], i)
    {
      assert turns[..n][..i] == turns[..i];
    }
  }

  function StateOf(added: bool, enabled: bool): External {
    if added then AlreadyEnabled else if enabled then JustEnabled else Disabled
  }

  lemma TurnMovesExternal(s: Session, turn: Turn, initial: seq<Decl>)
    ensures var begun := if turn.Executed? then ApplyExternal(s).external else s.external;
            Serve(s, turn, initial).external == if Enables(turn) then Raise(begun) else begun
  {
    if turn.Executed? && turn.ev.Ran? {
      PlayExternal(Commit(Begin(s, turn.m), turn.ev.names), turn.ev.effects);
    }
  }

  /** One more turn adds exactly if it runs a cell after the enabling one and none did so before. */
  lemma LastTurnAdds(turns: seq<Turn>)
    requires turns != []
    ensures var n := |turns| - 1;
            && (AddedIn(turns) <==> AddedIn(turns[..n]) || (turns[n].Executed? && EnabledIn(turns[..n])))
            && (EnabledIn(turns) <==> EnabledIn(turns[..n]) || Enables(turns[n]))
  {
    var n := |turns| - 1;
    AddedInPrefix(turns);
    EnabledInLast(turns);
    if turns[n].Executed? && EnabledIn(turns[..n]) {
      SomeCellIsFirst(turns, n);
    }
  }

  lemma AddedWasEnabled(turns: seq<Turn>)
    requires AddedIn(turns)
    ensures EnabledIn(turns)
  {
    var i :| 0 <= i < |turns| && AddsExternal(turns, i);
    EnabledInPrefix(turns, i);
  }

  /** `EXTERNAL_STATE` after any history, as a function of which cells ran and enabled. */
  lemma {:induction false} ExternalState(initial: seq<Decl>, turns: seq<Turn>)
    ensures After(initial, turns).external == StateOf(AddedIn(turns), EnabledIn(turns))
  {
    if turns != [] {
      var n := |turns| - 1;
      ExternalState(initial, turns[..n]);
      TurnMovesExternal(After(initial, turns[..n]), turns[n], initial);
      LastTurnAdds(turns);
      if AddedIn(turns[..n]) {
        AddedWasEnabled(turns[..n]);
      }
    }
  }

  /** `run-external` is added at most once per process. */
  lemma ExternalAddedOnce(turns: seq<Turn>, i: nat, j: nat)
    requires i < |turns| && j < |turns| && AddsExternal(turns, i) && AddsExternal(turns, j)
    ensures i == j
  {
  }

  // ----- engine replay -----

  /** The number of turns up to and including the last restart. */
  function LastRestart(turns: seq<Turn>): (k: nat)
    ensures k <= |turns|
    ensures 0 < k ==> turns[k - 1].Restarted?
    ensures forall i :: k <= i < |turns| ==> !turns[i].Restarted?
  {
    if turns == [] then 0
    else if turns[|turns| - 1].Restarted? then |turns|
    else LastRestart(turns[..|turns| - 1])
  }

  /** What turn i adds to the engine: a cell that was rejected adds nothing of its own. */
  function Contribution(turns: seq<Turn>, i: nat): seq<Decl>
    requires i < |turns|
  {
    (if AddsExternal(turns, i) then [RunExternal] else []) +
    (if turns[i].Executed? && turns[i].ev.Ran? then Define(turns[i].ev.names) else [])
  }

  function Contributions(turns: seq<Turn>, lo: nat, hi: nat): seq<Decl>
    requires lo <= hi <= |turns|
    decreases hi
  {
    if lo == hi then [] else Contributions(turns, lo, hi - 1) + Contribution(turns, hi - 1)
  }

  lemma {:induction false} ContributionsInPrefix(turns: seq<Turn>, n: nat, lo: nat, hi: nat)
    requires lo <= hi <= n <= |turns|
    ensures Contributions(turns[..n], lo, hi) == Contributions(turns, lo, hi)
    decreases hi
  {
    if lo < hi {
      ContributionsInPrefix(turns, n, lo, hi - 1);
      AddsExternalInPrefix(turns, n, hi - 1);
      assert Contribution(turns[..n], hi - 1) == Contribution(turns, hi - 1);
    }
  }

  /** Begin adds the external runner in exactly the turn that `AddsExternal` names. */
  lemma {:induction false} BeginApplies(initial: seq<Decl>, turns: seq<Turn>)
    requires turns != [] && turns[|turns| - 1].Executed?
    ensures After(initial, turns[..|turns| - 1]).external == JustEnabled <==> AddsExternal(turns, |turns| - 1)
  {
    var n := |turns| - 1;
    var before := turns[..n];
    ExternalState(initial, before);
    if !AddedIn(before) && EnabledIn(before) {
      forall b | 0 <= b < n && turns[b].Executed?
        ensures !EnabledIn(turns[..b])
      {
        if EnabledIn(turns[..b]) {
          assert before[..b] == turns[..b];
          SomeCellIsFirst(before, b);
        }
      }
    }
    if AddsExternal(turns, n) {
      FirstIsFirst(turns, n);
    }
  }

  /** What a turn that is no restart adds to the engine, by the state of the external switch. */
  function Added(s: Session, turn: Turn): seq<Decl> {
    (if turn.Executed? && s.external == JustEnabled then [RunExternal] else []) +
    (if turn.Executed? && turn.ev.Ran? then Define(turn.ev.names) else [])
  }

  lemma TurnAdds(s: Session, turn: Turn, initial: seq<Decl>)
    requires !turn.Restarted?
    ensures Serve(s, turn, initial).engine == s.engine + Added(s, turn)
  {
    assert s.engine + [] == s.engine;
  }

  lemma {:induction false} ServeContributes(initial: seq<Decl>, turns: seq<Turn>)
    requires turns != [] && !turns[|turns| - 1].Restarted?
    ensures var n := |turns| - 1;
            After(initial, turns).engine == After(initial, turns[..n]).engine + Contribution(turns, n)
  {
    var n := |turns| - 1;
    TurnAdds(After(initial, turns[..n]), turns[n], initial);
    if turns[n].Executed? {
      BeginApplies(initial, turns);
    } else {
      assert !AddsExternal(turns, n);
    }
    assert Added(After(initial, turns[..n]), turns[n]) == Contribution(turns, n);
  }

  lemma {:induction false} ReplayTurn(initial: seq<Decl>, turns: seq<Turn>, k: nat)
    requires turns != [] && !turns[|turns| - 1].Restarted? && k <= |turns| - 1
    requires var n := |turns| - 1;
             After(initial, turns[..n]).engine == initial + Contributions(turns[..n], k, n)
    ensures After(initial, turns).engine == initial + Contributions(turns, k, |turns|)
  {
    var n := |turns| - 1;
    ContributionsInPrefix(turns, n, k, n);
    ServeContributes(initial, turns);
    AppendedLast(After(initial, turns).engine, After(initial, turns[..n]).engine,
                 initial, Contributions(turns, k, n), Contribution(turns, n));
  }

  /** The engine is always the initial one plus, in order, what the turns since the last restart contribute. */
  lemma {:induction false} EngineReplay(initial: seq<Decl>, turns: seq<Turn>)
    ensures After(initial, turns).engine == initial + Contributions(turns, LastRestart(turns), |turns|)
  {
    if turns != [] && !turns[|turns| - 1].Restarted? {
      EngineReplay(initial, turns[..|turns| - 1]);
      ReplayTurn(initial, turns, LastRestart(turns));
    } else {
      assert initial + [] == initial;
    }
  }

  lemma AppendedLast(e: seq<Decl>, d: seq<Decl>, a: seq<Decl>, b: seq<Decl>, c: seq<Decl>)
    requires e == d + c && d == a + b
    ensures e == a + (b + c)
  {
  }

  lemma RunExternalInOne(turns: seq<Turn>, i: nat)
    requires i < |turns|
    ensures RunExternal in Contribution(turns, i) <==> AddsExternal(turns, i)
  {
  }

  lemma {:induction false} FindContribution(turns: seq<Turn>, lo: nat, hi: nat, decl: Decl) returns (i: nat)
    requires lo <= hi <= |turns| && decl in Contributions(turns, lo, hi)
    ensures lo <= i < hi && decl in Contribution(turns, i)
    decreases hi
  {
    if decl in Contribution(turns, hi - 1) {
      i := hi - 1;
    } else {
      i := FindContribution(turns, lo, hi - 1, decl);
    }
  }

  lemma {:induction false} ContributionIsIn(turns: seq<Turn>, lo: nat, hi: nat, i: nat, decl: Decl)
    requires lo <= i < hi <= |turns| && decl in Contribution(turns, i)
    ensures decl in Contributions(turns, lo, hi)
    decreases hi
  {
    if i < hi - 1 {
      ContributionIsIn(turns, lo, hi - 1, i, decl);
    }
  }

  /** Some turn from `lo` on adds the external runner. */
  predicate AddsFrom(turns: seq<Turn>, lo: nat) {
    exists i :: lo <= i < |turns| && AddsExternal(turns, i)
  }

  lemma RunExternalIsAdded(turns: seq<Turn>, lo: nat)
    requires lo <= |turns|
    ensures RunExternal in Contributions(turns, lo, |turns|) <==> AddsFrom(turns, lo)
  {
    if RunExternal in Contributions(turns, lo, |turns|) {
      var i := FindContribution(turns, lo, |turns|, RunExternal);
      RunExternalInOne(turns, i);
    }
    if AddsFrom(turns, lo) {
      var i :| lo <= i < |turns| && AddsExternal(turns, i);
      RunExternalInOne(turns, i);
      ContributionIsIn(turns, lo, |turns|, i, RunExternal);
    }
  }

  /** External commands are available exactly when the adding turn came after the last restart. */
  lemma ExternalAvailable(initial: seq<Decl>, turns: seq<Turn>)
    requires RunExternal !in initial
    ensures RunExternal in After(initial, turns).engine <==> AddsFrom(turns, LastRestart(turns))
  {
    EngineReplay(initial, turns);
    RunExternalIsAdded(turns, LastRestart(turns));
  }

  /** Before any restart the atomic and the engine agree. */
  lemma ExternalAgreesUntilRestart(initial: seq<Decl>, turns: seq<Turn>)
    requires RunExternal !in initial && forall i :: 0 <= i < |turns| ==> !turns[i].Restarted?
    ensures After(initial, turns).external == AlreadyEnabled <==> RunExternal in After(initial, turns).engine
  {
    ExternalAvailable(initial, turns);
    ExternalState(initial, turns);
  }

  /** After a restart that follows the adding turn no later cell can bring external commands back. */
  lemma ExternalLostByRestart(initial: seq<Decl>, turns: seq<Turn>, i: nat, j: nat)
    requires RunExternal !in initial
    requires i < j < |turns| && AddsExternal(turns, i) && turns[j].Restarted?
    ensures RunExternal !in After(initial, turns).engine && After(initial, turns).external == AlreadyEnabled
  {
    ExternalAvailable(initial, turns);
    ExternalState(initial, turns);
  }

  // ----- the render filter -----

  predicate Takes(turn: Turn) {
    turn.Executed? && turn.ev.Ran? && turn.ev.result.Value?
  }

  /** The filter that the effects of one cell leave pending. */
  function LastDisplay(effects: seq<Effect>): Option<string> {
    if effects == [] then None
    else
      match effects[|effects| - 1]
      case Display(mime) => Some(mime)
      case _ => LastDisplay(effects[..|effects| - 1])
  }

  lemma {:induction false} PlayFilter(s: Session, effects: seq<Effect>)
    ensures Play(s, effects).filter == if LastDisplay(effects).Some? then LastDisplay(effects) else s.filter
  {
    if effects != [] {
      PlayFilter(s, effects[..|effects| - 1]);
    }
  }

  /** What a cell displays: its last display command, or whatever an earlier cell left behind. */
  function Wish(turn: Turn): Option<string> {
    if turn.Executed? && turn.ev.Ran? then LastDisplay(turn.ev.effects) else None
  }

  /** Turn i left its display filter to the turns after it. */
  predicate LeavesFilter(turns: seq<Turn>, i: nat)
    requires i < |turns|
  {
    Wish(turns[i]).Some? && !Takes(turns[i]) &&
    forall j :: i < j < |turns| ==> !Takes(turns[j]) && Wish(turns[j]).None?
  }

  /** Some turn left `mime` to the turns after it. */
  predicate IsLeft(turns: seq<Turn>, mime: string) {
    exists i :: 0 <= i < |turns| && LeavesFilter(turns, i) && Wish(turns[i]) == Some(mime)
  }

  lemma LeavesInPrefix(turns: seq<Turn>, i: nat)
    requires i < |turns| - 1
    ensures LeavesFilter(turns, i) <==>
            LeavesFilter(turns[..|turns| - 1], i) && !Takes(turns[|turns| - 1]) && Wish(turns[|turns| - 1]).None?
  {
    var n := |turns| - 1;
    var before := turns[..n];
    assert forall j :: 0 <= j < n ==> before[j] == turns[j];
  }

  lemma LeftByLast(turns: seq<Turn>, mime: string)
    requires turns != []
    ensures var before, last := turns[..|turns| - 1], turns[|turns| - 1];
            IsLeft(turns, mime) <==>
            !Takes(last) && if Wish(last).Some? then Wish(last) == Some(mime) else IsLeft(before, mime)
  {
    var n := |turns| - 1;
    var before := turns[..n];
    if IsLeft(turns, mime) {
      var i :| 0 <= i < |turns| && LeavesFilter(turns, i) && Wish(turns[i]) == Some(mime);
      if i < n {
        LeavesInPrefix(turns, i);
      }
    }
    if IsLeft(before, mime) {
      var i :| 0 <= i < n && LeavesFilter(before, i) && Wish(before[i]) == Some(mime);
      LeavesInPrefix(turns, i);
    }
    assert !Takes(turns[n]) && Wish(turns[n]).Some? ==> LeavesFilter(turns, n);
  }

  lemma TurnMovesFilter(s: Session, turn: Turn, initial: seq<Decl>)
    ensures Serve(s, turn, initial).filter ==
            if Takes(turn) then None else if Wish(turn).Some? then Wish(turn) else s.filter
  {
    if turn.Executed? && turn.ev.Ran? {
      PlayFilter(Commit(Begin(s, turn.m), turn.ev.names), turn.ev.effects);
    }
  }

  /** The pending filter is the one of the last cell that displayed and did not produce a value since. */
  lemma {:induction false} PendingFilter(initial: seq<Decl>, turns: seq<Turn>, mime: string)
    ensures After(initial, turns).filter == Some(mime) <==> IsLeft(turns, mime)
  {
    if turns != [] {
      var n := |turns| - 1;
      PendingFilter(initial, turns[..n], mime);
      LeftByLast(turns, mime);
      TurnMovesFilter(After(initial, turns[..n]), turns[n], initial);
    }
  }

  /** The filter a result is rendered with. */
  function FilterUsed(initial: seq<Decl>, turns: seq<Turn>, turn: Turn): Option<string>
    requires Takes(turn)
  {
    Play(Commit(Begin(After(initial, turns), turn.m), turn.ev.names), turn.ev.effects).filter
  }

  /** A result is rendered with its own cell's filter exactly when the cell displays, or no filter is pending. */
  lemma FilterIsOwn(initial: seq<Decl>, turns: seq<Turn>, turn: Turn)
    requires Takes(turn)
    ensures FilterUsed(initial, turns, turn) == Wish(turn) <==>
            Wish(turn).Some? || After(initial, turns).filter.None?
  {
    PlayFilter(Commit(Begin(After(initial, turns), turn.m), turn.ev.names), turn.ev.effects);
  }

  /** A failing cell's filter is applied to the next cell's result. */
  lemma FilterLeaks(m: Request)
    ensures var failing := Executed(m, Ran([], [Display("text/csv")], Failed("no")));
            var plain := Executed(m, Ran([], [], Value("1")));
            FilterUsed([], [failing], plain) == Some("text/csv") && Wish(plain).None?
  {
    var effects := [Display("text/csv")];
    var failing := Executed(m, Ran([], effects, Failed("no")));
    assert effects[..0] == [];
    assert [failing][..0] == [];
    PlayFilter(Commit(Begin(Fresh([]), m), []), effects);
    assert After([], [failing]).filter == Some("text/csv");
  }
}
