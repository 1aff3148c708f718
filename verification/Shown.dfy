/** What the turns of the shell show and answer, read off the turns alone, and that every run publishes just that. */
module Shown {
  import opened Protocol
  import opened Session
  import opened Kernel
  import opened Refinement
  import opened History
  import Decimal
  import Theorems

  // ----- what a history shows, without a session -----

  /** The values that the effects print, with the format asked for, in order. */
  function Prints(effects: seq<Effect>): seq<(string, Option<string>)> {
    if effects == [] then []
    else
      var last := effects[|effects| - 1];
      Prints(effects[..|effects| - 1]) + if last.Print? then [(last.value, last.format)] else []
  }

  function Renderings(prints: seq<(string, Option<string>)>): seq<Data> {
    seq(|prints|, i requires 0 <= i < |prints| => Rendered(prints[i].0, prints[i].1))
  }

  predicate Succeeds(turn: Turn) {
    turn.Executed? && turn.ev.Ran? && !turn.ev.result.Failed?
  }

  /** The number of cells that ran without an error. */
  function Successes(turns: seq<Turn>): nat {
    if turns == [] then 0
    else Successes(turns[..|turns| - 1]) + if Succeeds(turns[|turns| - 1]) then 1 else 0
  }

  /** The number of cells since the last one that ran without an error. */
  function Attempts(turns: seq<Turn>): nat {
    if turns == [] || Succeeds(turns[|turns| - 1]) then 0
    else Attempts(turns[..|turns| - 1]) + if turns[|turns| - 1].Executed? then 1 else 0
  }

  /** The display filter that waits for a result. */
  function Pending(turns: seq<Turn>): Option<string> {
    if turns == [] then None
    else
      var before, last := turns[..|turns| - 1], turns[|turns| - 1];
      if Takes(last) then None else if Wish(last).Some? then Wish(last) else Pending(before)
  }

  /** What a cell that ran shows behind its prints. */
  function Ending(turn: Turn, pending: Option<string>): seq<Data>
    requires turn.Executed? && turn.ev.Ran?
  {
    match turn.ev.result
    case Failed(error) => [Report(error)]
    case Nothing => []
    case Value(v) => [Rendered(v, if Wish(turn).Some? then Wish(turn) else pending)]
  }

  /** What a turn shows, behind turns that left this filter: its prints, and then its error or its value. */
  function ShownBy(turn: Turn, pending: Option<string>): seq<Data> {
    match turn
    case Executed(_, Rejected(error)) => [Report(error)]
    case Executed(_, Ran(_, effects, _)) => Renderings(Prints(effects)) + Ending(turn, pending)
    case _ => []
  }

  function AllShown(turns: seq<Turn>): seq<Data> {
    if turns == [] then []
    else
      var before := turns[..|turns| - 1];
      AllShown(before) + ShownBy(turns[|turns| - 1], Pending(before))
  }

  /** What a turn answers when this many cells succeeded before it. */
  function Verdict(turn: Turn, successes: nat): seq<ShellReply> {
    match turn
    case Executed(_, Rejected(error)) => [ErrorReply(error, Some(successes + 1))]
    case Executed(_, Ran(_, _, Failed(error))) => [ErrorReply(error, Some(successes + 1))]
    case Executed(_, _) => [ExecuteReply(successes + 1)]
    case Answered(m) => [if m.content.KernelInfo? then KernelInfoReply else IsCompleteReply]
    case Restarted => []
  }

  function Verdicts(turns: seq<Turn>): seq<ShellReply> {
    if turns == [] then []
    else
      var before := turns[..|turns| - 1];
      Verdicts(before) + Verdict(turns[|turns| - 1], Successes(before))
  }

  // ----- the session knows just that -----

  lemma {:induction false} SessionCounts(initial: seq<Decl>, turns: seq<Turn>)
    ensures After(initial, turns).cell == Cell(Successes(turns) + 1, Attempts(turns) + 1)
    ensures After(initial, turns).filter == Pending(turns)
  {
    if turns != [] {
      var n := |turns| - 1;
      SessionCounts(initial, turns[..n]);
      TurnMovesFilter(After(initial, turns[..n]), turns[n], initial);
      TurnMovesCell(After(initial, turns[..n]), turns[n], initial);
    }
  }

  lemma TurnMovesCell(s: Session, turn: Turn, initial: seq<Decl>)
    ensures Serve(s, turn, initial).cell ==
            if Succeeds(turn) then Cell(s.cell.execution + 1, 1)
            else if turn.Executed? then Cell(s.cell.execution, s.cell.retry + 1)
            else s.cell
  {
  }

  /** A cell is named after the cells that succeeded before it and the attempts since the last of them. */
  lemma CellIsNamed(initial: seq<Decl>, turns: seq<Turn>, i: nat)
    requires i < |turns| && turns[i].Executed?
    ensures NameAt(initial, turns, i) ==
            "cell[" + Decimal.Print(Successes(turns[..i]) + 1) + "]#" + Decimal.Print(Attempts(turns[..i]) + 1)
  {
    SessionCounts(initial, turns[..i]);
  }

  /** `$nuju` holds the last cell since the last restart, by its name and request. */
  lemma {:induction false} KonstIsLastCell(initial: seq<Decl>, turns: seq<Turn>, i: nat)
    requires LastRestart(turns) <= i < |turns| && turns[i].Executed?
    requires forall j :: i < j < |turns| ==> !turns[j].Executed?
    ensures After(initial, turns).konst == Some(Konst(NameAt(initial, turns, i), turns[i].m))
    decreases |turns|
  {
    var n := |turns| - 1;
    if i < n {
      KonstIsLastCell(initial, turns[..n], i);
      assert turns[..n][..i] == turns[..i];
    }
  }

  /** Behind a restart `$nuju` holds nothing until a cell begins. */
  lemma {:induction false} KonstIsForgotten(initial: seq<Decl>, turns: seq<Turn>)
    requires forall i :: LastRestart(turns) <= i < |turns| ==> !turns[i].Executed?
    ensures After(initial, turns).konst == None
  {
    if turns != [] && !turns[|turns| - 1].Restarted? {
      KonstIsForgotten(initial, turns[..|turns| - 1]);
    }
  }

  // ----- what a turn publishes -----

  /** Each print is shown by one message to the request in `$nuju`: its value, under its format. */
  lemma {:induction false} PrintsAreShown(konst: Konst, effects: seq<Effect>)
    ensures |AllPrinted(konst, effects)| == |Prints(effects)|
    ensures forall i :: 0 <= i < |Prints(effects)| ==>
              AllPrinted(konst, effects)[i] ==
              Bare(konst.request.zmqIdentities, Some(konst.request.header),
                   DisplayData(Rendered(Prints(effects)[i].0, Prints(effects)[i].1)))
  {
    if effects != [] {
      PrintsAreShown(konst, effects[..|effects| - 1]);
    }
  }

  /** The message of a turn that shows its `i`-th piece of data: a result if it is the value, a display otherwise. */
  predicate Shows(out: Bare<Iopub>, turn: Turn, successes: nat, data: Data, isLast: bool) {
    !turn.Restarted? &&
    out.zmqIdentities == turn.m.zmqIdentities && out.parentHeader == Some(turn.m.header) &&
    out.content == if Takes(turn) && isLast then ExecuteResult(successes + 1, data) else DisplayData(data)
  }

  predicate AllShow(outs: seq<Bare<Iopub>>, turn: Turn, successes: nat, shown: seq<Data>) {
    |outs| == |shown| &&
    forall i :: 0 <= i < |outs| ==> Shows(outs[i], turn, successes, shown[i], i == |shown| - 1)
  }

  lemma {:induction false} PrintsShow(konst: Konst, turn: Turn, successes: nat, effects: seq<Effect>)
    requires !turn.Restarted? && konst.request == turn.m
    ensures |AllPrinted(konst, effects)| == |Prints(effects)|
    ensures forall i :: 0 <= i < |Prints(effects)| ==>
              Shows(AllPrinted(konst, effects)[i], turn, successes, Renderings(Prints(effects))[i], false)
  {
    PrintsAreShown(konst, effects);
  }

  lemma JoinShown(outs: seq<Bare<Iopub>>, shown: seq<Data>, last: seq<Bare<Iopub>>, end: seq<Data>,
                  turn: Turn, successes: nat)
    requires |outs| == |shown| && forall i :: 0 <= i < |outs| ==> Shows(outs[i], turn, successes, shown[i], false)
    requires |last| == |end| <= 1 && (last == [] ==> !Takes(turn))
    requires last != [] ==> Shows(last[0], turn, successes, end[0], true)
    ensures AllShow(outs + last, turn, successes, shown + end)
  {
  }

  lemma {:induction false} EndingShows(s: Session, turn: Turn, successes: nat)
    requires turn.Executed? && turn.ev.Ran? && s.cell.execution == successes + 1
    ensures var t := Commit(Begin(s, turn.m), turn.ev.names);
            var last, end := Concluding(Play(t, turn.ev.effects), turn.m, turn.ev.result), Ending(turn, s.filter);
            |last| == |end| <= 1 && (last == [] ==> !Takes(turn)) &&
            (last != [] ==> Shows(last[0], turn, successes, end[0], true))
  {
    PlayFilter(Commit(Begin(s, turn.m), turn.ev.names), turn.ev.effects);
  }

  lemma {:induction false} RanShows(s: Session, turn: Turn, successes: nat)
    requires turn.Executed? && turn.ev.Ran? && s.cell.execution == successes + 1
    ensures AllShow(Outputs(s, turn), turn, successes, ShownBy(turn, s.filter))
  {
    var t := Commit(Begin(s, turn.m), turn.ev.names);
    var prints := Renderings(Prints(turn.ev.effects));
    PrintsShow(t.konst.value, turn, successes, turn.ev.effects);
    EndingShows(s, turn, successes);
    JoinShown(AllPrinted(t.konst.value, turn.ev.effects), prints,
              Concluding(Play(t, turn.ev.effects), turn.m, turn.ev.result), Ending(turn, s.filter), turn, successes);
  }

  lemma {:induction false} OutputsShow(initial: seq<Decl>, turns: seq<Turn>, turn: Turn)
    ensures AllShow(Outputs(After(initial, turns), turn), turn, Successes(turns), ShownBy(turn, Pending(turns)))
  {
    SessionCounts(initial, turns);
    if turn.Executed? && turn.ev.Ran? {
      RanShows(After(initial, turns), turn, Successes(turns));
    }
  }

  /** The whole block of a request: busy, each piece of what the turn shows in its own message, idle. */
  lemma {:induction false} TurnPublishes(initial: seq<Decl>, turns: seq<Turn>, turn: Turn)
    requires !turn.Restarted?
    ensures var b, shown := Block(After(initial, turns), turn), ShownBy(turn, Pending(turns));
            && |b| == |shown| + 2
            && b[0] == Bare([], Some(turn.m.header), Status(true))
            && b[|b| - 1] == Bare([], Some(turn.m.header), Status(false))
            && AllShow(b[1..|b| - 1], turn, Successes(turns), shown)
  {
    OutputsShow(initial, turns, turn);
    var b := Block(After(initial, turns), turn);
    assert b[1..|b| - 1] == Outputs(After(initial, turns), turn);
  }

  /** A turn's reply goes back to its request, and says how it ended and with which count. */
  lemma {:induction false} TurnReplies(initial: seq<Decl>, turns: seq<Turn>, turn: Turn)
    ensures var replies, verdict := ReplyTo(After(initial, turns), turn), Verdict(turn, Successes(turns));
            && |replies| == |verdict|
            && forall i :: 0 <= i < |replies| ==>
                 !turn.Restarted? &&
                 replies[i] == Bare(turn.m.zmqIdentities, Some(turn.m.header), verdict[i])
  {
    SessionCounts(initial, turns);
  }

  /** The filter of a result is its own cell's display, or else the one that waits. */
  lemma FilterIsWishOrPending(initial: seq<Decl>, turns: seq<Turn>, turn: Turn)
    requires Takes(turn)
    ensures FilterUsed(initial, turns, turn) == if Wish(turn).Some? then Wish(turn) else Pending(turns)
  {
    SessionCounts(initial, turns);
    PlayFilter(Commit(Begin(After(initial, turns), turn.m), turn.ev.names), turn.ev.effects);
  }

  // ----- whole histories -----

  /** What the displays and results among the messages show, in order. */
  function DataOf(outs: seq<Bare<Iopub>>): seq<Data> {
    if outs == [] then []
    else
      var last := outs[|outs| - 1].content;
      DataOf(outs[..|outs| - 1]) + if last.DisplayData? || last.ExecuteResult? then [last.data] else []
  }

  lemma {:induction false} DataPlus(a: seq<Bare<Iopub>>, b: seq<Bare<Iopub>>)
    ensures DataOf(a + b) == DataOf(a) + DataOf(b)
    decreases |b|
  {
    if b == [] {
      assert a + b == a;
    } else {
      var n := |b| - 1;
      DataPlus(a, b[..n]);
      assert (a + b)[..|a + b| - 1] == a + b[..n];
    }
  }

  lemma {:induction false} DataOfShown(outs: seq<Bare<Iopub>>, shown: seq<Data>)
    requires |outs| == |shown|
    requires forall i :: 0 <= i < |outs| ==>
               (outs[i].content.DisplayData? || outs[i].content.ExecuteResult?) && outs[i].content.data == shown[i]
    ensures DataOf(outs) == shown
  {
    if outs != [] {
      var n := |outs| - 1;
      DataOfShown(outs[..n], shown[..n]);
      assert shown == shown[..n] + [shown[n]];
    }
  }

  lemma DataOfStatus(m: Request, busy: bool)
    ensures DataOf([StatusOf(m, busy)]) == []
  {
    assert DataOf([StatusOf(m, busy)][..0]) == [];
  }

  lemma {:induction false} DataOfOutputs(initial: seq<Decl>, turns: seq<Turn>, turn: Turn)
    ensures DataOf(Outputs(After(initial, turns), turn)) == ShownBy(turn, Pending(turns))
  {
    OutputsShow(initial, turns, turn);
    DataOfShown(Outputs(After(initial, turns), turn), ShownBy(turn, Pending(turns)));
  }

  lemma {:induction false} DataOfBlock(initial: seq<Decl>, turns: seq<Turn>, turn: Turn)
    ensures DataOf(Block(After(initial, turns), turn)) == ShownBy(turn, Pending(turns))
  {
    if !turn.Restarted? {
      var outs := Outputs(After(initial, turns), turn);
      DataOfOutputs(initial, turns, turn);
      DataOfStatus(turn.m, true);
      DataOfStatus(turn.m, false);
      DataPlus([StatusOf(turn.m, true)], outs);
      DataPlus([StatusOf(turn.m, true)] + outs, [StatusOf(turn.m, false)]);
    }
  }

  /** Over any history, exactly what the turns show is published, in order. */
  lemma {:induction false} TranscriptShows(initial: seq<Decl>, turns: seq<Turn>)
    ensures DataOf(Transcript(initial, turns)) == AllShown(turns)
  {
    if turns != [] {
      var n := |turns| - 1;
      TranscriptShows(initial, turns[..n]);
      DataOfBlock(initial, turns[..n], turns[n]);
      DataPlus(Transcript(initial, turns[..n]), Block(After(initial, turns[..n]), turns[n]));
    }
  }

  /** Over any history, the replies are the verdicts on its turns, in order. */
  lemma {:induction false} RepliesAreVerdicts(initial: seq<Decl>, turns: seq<Turn>)
    ensures |Replies(initial, turns)| == |Verdicts(turns)|
    ensures forall i :: 0 <= i < |Verdicts(turns)| ==> Replies(initial, turns)[i].content == Verdicts(turns)[i]
  {
    if turns != [] {
      var n := |turns| - 1;
      RepliesAreVerdicts(initial, turns[..n]);
      TurnReplies(initial, turns[..n], turns[n]);
    }
  }

  // ----- declarations -----

  /** Turn i merged a declaration of this name. */
  predicate Defines(turn: Turn, name: string) {
    turn.Executed? && turn.ev.Ran? && name in turn.ev.names
  }

  lemma DefinesContributes(turns: seq<Turn>, i: nat, name: string)
    requires i < |turns|
    ensures Defined(name) in Contribution(turns, i) <==> Defines(turns[i], name)
  {
    if Defines(turns[i], name) {
      var names := turns[i].ev.names;
      var k :| 0 <= k < |names| && names[k] == name;
      assert Define(names)[k] == Defined(name);
    }
  }

  /** Some turn from `lo` on merged a declaration of this name. */
  predicate DefinedFrom(turns: seq<Turn>, lo: nat, name: string) {
    exists i :: lo <= i < |turns| && Defines(turns[i], name)
  }

  lemma ContributionsDefine(turns: seq<Turn>, lo: nat, name: string)
    requires lo <= |turns|
    ensures Defined(name) in Contributions(turns, lo, |turns|) <==> DefinedFrom(turns, lo, name)
  {
    if Defined(name) in Contributions(turns, lo, |turns|) {
      var i := FindContribution(turns, lo, |turns|, Defined(name));
      DefinesContributes(turns, i, name);
    }
    if DefinedFrom(turns, lo, name) {
      var i :| lo <= i < |turns| && Defines(turns[i], name);
      DefinesContributes(turns, i, name);
      ContributionIsIn(turns, lo, |turns|, i, Defined(name));
    }
  }

  /** A name is declared exactly if it was from the start, or a cell since the last restart that passed parser and
      compiler declared it. */
  lemma DeclaredIff(initial: seq<Decl>, turns: seq<Turn>, name: string)
    ensures Defined(name) in After(initial, turns).engine <==>
            Defined(name) in initial || DefinedFrom(turns, LastRestart(turns), name)
  {
    EngineReplay(initial, turns);
    ContributionsDefine(turns, LastRestart(turns), name);
  }

  // ----- every run publishes and answers just that -----

  /** What the current turn has shown so far: its prints, and its error or value once the evaluation is known. */
  function ShownSoFar(s: State): seq<Data> {
    var pc := s.shell.pc;
    if InEvaluation(pc) || pc.Rendering? then Renderings(Prints(s.log.effects))
    else if Concluded(pc) then ShownBy(s.log.turn, Pending(s.log.turns))
    else []
  }

  lemma {:induction false} EvaluationShows(konst: Konst, effects: seq<Effect>, m: Request)
    ensures DataOf([StatusOf(m, true)] + AllPrinted(konst, effects)) == Renderings(Prints(effects))
  {
    DataOfStatus(m, true);
    DataPlus([StatusOf(m, true)], AllPrinted(konst, effects));
    PrintsAreShown(konst, effects);
    DataOfShown(AllPrinted(konst, effects), Renderings(Prints(effects)));
  }

  lemma {:induction false} ConclusionShows(initial: seq<Decl>, turns: seq<Turn>, turn: Turn, m: Request)
    ensures DataOf([StatusOf(m, true)] + Outputs(After(initial, turns), turn)) == ShownBy(turn, Pending(turns))
  {
    DataOfStatus(m, true);
    DataPlus([StatusOf(m, true)], Outputs(After(initial, turns), turn));
    DataOfOutputs(initial, turns, turn);
  }

  lemma {:induction false} CurrentShows(s: State)
    ensures DataOf(CurrentOutputs(s, After(s.initial, s.log.turns))) == ShownSoFar(s)
  {
    var base, pc := After(s.initial, s.log.turns), s.shell.pc;
    if InEvaluation(pc) || pc.Rendering? {
      EvaluationShows(Begin(base, pc.m).konst.value, s.log.effects, pc.m);
    } else if pc.Sending? && pc.next.ToListen? {
      DataOfBlock(s.initial, s.log.turns, s.log.turn);
    } else if Concluded(pc) {
      ConclusionShows(s.initial, s.log.turns, s.log.turn, pc.m);
    } else if IsBusy(pc) {
      DataOfStatus(pc.m, true);
    }
  }

  lemma {:induction false} DataPrefix(a: seq<Bare<Iopub>>, b: seq<Bare<Iopub>>)
    requires a <= b
    ensures DataOf(a) <= DataOf(b)
  {
    assert b == a + b[|a|..];
    DataPlus(a, b[|a|..]);
  }

  /** In every reachable state the iopub log shows, in order, a front of what the completed turns and the current one
      show, and nothing else. */
  lemma {:induction false} PublishedShows(s: State)
    requires Reachable(s)
    ensures DataOf(Bares(s.log.published)) <= AllShown(s.log.turns) + ShownSoFar(s)
  {
    var outs := CurrentOutputs(s, After(s.initial, s.log.turns));
    Theorems.CurrentMessages(s);
    Theorems.PublishedPrefix(s);
    assert Bares(Pipeline(s)) <= Bares(Pipeline(s)) + Held(s.shell.pc);
    DataPrefix(Bares(s.log.published), Transcript(s.initial, s.log.turns) + outs);
    DataPlus(Transcript(s.initial, s.log.turns), outs);
    TranscriptShows(s.initial, s.log.turns);
    CurrentShows(s);
  }

  /** Up to each idle status the iopub log shows exactly what the turns up to it show. */
  lemma {:induction false} IdleMeansShown(s: State, i: nat) returns (k: nat)
    requires Reachable(s)
    requires i < |s.log.published| && s.log.published[i].content == Status(false)
    ensures 0 < k <= |s.log.turns| && !s.log.turns[k - 1].Restarted?
    ensures s.log.published[i].parentHeader == Some(s.log.turns[k - 1].m.header)
    ensures DataOf(Bares(s.log.published[..i + 1])) == AllShown(s.log.turns[..k])
  {
    k := Theorems.IdleMeansAnswered(s, i);
    TranscriptShows(s.initial, s.log.turns[..k]);
  }

  /** In every reachable state the i-th reply is the verdict on the i-th request: the error or the success of its own
      turn, with its count. */
  lemma {:induction false} RepliesTell(s: State, i: nat)
    requires Reachable(s) && i < |s.log.replies|
    ensures var verdicts := Verdicts(Theorems.RepliedTurns(s));
            |verdicts| == |s.log.replies| && s.log.replies[i].content == verdicts[i]
  {
    Theorems.RepliesOfTurns(s);
    RepliesAreVerdicts(s.initial, Theorems.RepliedTurns(s));
    assert Bared(s.log.replies)[i] == Strip(s.log.replies[i]);
  }
}
