/** The shell handler as the object it is in the source: fields that its methods overwrite,
    proved against the sequential history. */
module Handler {
  import opened Protocol
  import opened Session
  import Decimal
  import History

  /** `Cell`: execution and retry counters. */
  class CellCounter {
    var executionCounter: nat
    var retryCounter: nat

    ghost function Current(): Cell
      reads this
    {
      Cell(executionCounter, retryCounter)
    }

    constructor ()
      ensures Current() == Cell(1, 1)
    {
      executionCounter := 1;
      retryCounter := 1;
    }

    /** A name for the next attempt: no later call can give it again. */
    method NextName() returns (name: string)
      modifies this
      ensures name == Decimal.CellName(old(executionCounter), old(retryCounter))
      ensures Current() == Cell(old(executionCounter), old(retryCounter) + 1)
      ensures History.Below(old(Current()), Current())
    {
      name := Decimal.CellName(executionCounter, retryCounter);
      retryCounter := retryCounter + 1;
    }

    method Success() returns (count: nat)
      modifies this
      ensures count == old(executionCounter)
      ensures Current() == Cell(old(executionCounter) + 1, 1)
      ensures History.Below(old(Current()), Current())
    {
      count := executionCounter;
      executionCounter := executionCounter + 1;
      retryCounter := 1;
    }

    method ExecutionCount() returns (count: nat)
      ensures count == executionCounter
    {
      count := executionCounter;
    }
  }

  /** `EXTERNAL_STATE`: an atomic that only ever rises. */
  class ExternalSwitch {
    var state: External

    constructor ()
      ensures state == Disabled
    {
      state := Disabled;
    }

    /** `fetch_max(JustEnabled)` returns the old state and never lowers it. */
    method Enable() returns (previous: External)
      modifies this
      ensures previous == old(state) && state == Raise(old(state))
      ensures state != Disabled && (old(state) == AlreadyEnabled ==> state == AlreadyEnabled)
    {
      previous := state;
      if state == Disabled {
        state := JustEnabled;
      }
    }

    method Swap(next: External)
      modifies this
      ensures state == next
    {
      state := next;
    }
  }

  /** `HandlerContext`, with append-only logs in place of the two sockets. */
  class ShellHandler {
    const initialEngine: seq<Decl>
    const cell: CellCounter
    const external: ExternalSwitch
    var engine: seq<Decl>
    var konst: Option<Konst>
    var renderFilter: Option<string>
    var iopub: seq<Bare<Iopub>>
    var replies: seq<Bare<ShellReply>>

    ghost function Current(): Session
      reads this, cell, external
    {
      Session(engine, konst, cell.Current(), external.state, renderFilter)
    }

    constructor (initial: seq<Decl>)
      ensures initialEngine == initial && fresh(cell) && fresh(external)
      ensures Current() == Fresh(initial) && IsAfter([])
    {
      initialEngine := initial;
      cell := new CellCounter();
      external := new ExternalSwitch();
      engine := initial;
      konst := None;
      renderFilter := None;
      iopub := [];
      replies := [];
    }

    /** `External::apply` */
    method AddExternal()
      modifies this`engine, external
      ensures Current() == ApplyExternal(old(Current()))
    {
      if external.state == JustEnabled {
        engine := engine + [RunExternal];
        external.Swap(AlreadyEnabled);
      }
    }

    method BeginExecute(m: Request)
      modifies this`engine, this`konst, cell, external
      ensures Current() == Begin(old(Current()), m)
    {
      AddExternal();
      var name := cell.NextName();
      konst := Some(Konst(name, m));
    }

    /** The commands of a running cell; a print publishes under the request that `$nuju` holds. */
    method Evaluate(effects: seq<Effect>)
      requires konst.Some?
      modifies this`renderFilter, this`iopub, external
      ensures Current() == Play(old(Current()), effects)
      ensures iopub == old(iopub) + AllPrinted(konst.value, effects)
    {
      var i := 0;
      assert effects[..0] == [];
      while i < |effects|
        invariant i <= |effects|
        invariant Current() == Play(old(Current()), effects[..i])
        invariant iopub == old(iopub) + AllPrinted(konst.value, effects[..i])
      {
        match effects[i] {
          case Print(value, format) =>
            iopub := iopub + [Answer(konst.value.request, DisplayData(Rendered(value, format)))];
          case Display(mime) =>
            renderFilter := Some(mime);
          case EnableExternal =>
            var _ := external.Enable();
        }
        i := i + 1;
        assert effects[..i][..i - 1] == effects[..i - 1];
      }
      assert effects[..|effects|] == effects;
    }

    method HandleExecuteError(m: Request, error: string)
      modifies this`iopub, this`replies
      ensures iopub == old(iopub) + [Answer(m, DisplayData(Report(error)))]
      ensures replies == old(replies) + [Answer(m, ErrorReply(error, Some(cell.executionCounter)))]
    {
      iopub := iopub + [Answer(m, DisplayData(Report(error)))];
      var count := cell.ExecutionCount();
      replies := replies + [Answer(m, ErrorReply(error, Some(count)))];
    }

    /** A value takes the pending render filter, whoever set it. */
    method HandleExecuteResults(m: Request, value: Option<string>)
      modifies this`renderFilter, this`iopub, this`replies, cell
      ensures var result := if value.Some? then Value(value.value) else Nothing;
              Current() == Conclude(old(Current()), result) &&
              iopub == old(iopub) + Concluding(old(Current()), m, result)
      ensures replies == old(replies) + [Answer(m, ExecuteReply(old(cell.executionCounter)))]
    {
      var count := cell.Success();
      if value.Some? {
        var filter := renderFilter;
        renderFilter := None;
        iopub := iopub + [Answer(m, ExecuteResult(count, Rendered(value.value, filter)))];
      }
      replies := replies + [Answer(m, ExecuteReply(count))];
    }

    method HandleExecuteRequest(m: Request, ev: Evaluation)
      modifies this, cell, external
      ensures Current() == Serve(old(Current()), Executed(m, ev), initialEngine)
      ensures iopub == old(iopub) + Outputs(old(Current()), Executed(m, ev))
      ensures replies == old(replies) + ReplyTo(old(Current()), Executed(m, ev))
    {
      BeginExecute(m);
      match ev {
        case Rejected(error) =>
          HandleExecuteError(m, error);
        case Ran(names, effects, result) =>
          engine := engine + Define(names);
          Evaluate(effects);
          match result {
            case Failed(error) => HandleExecuteError(m, error);
            case Nothing => HandleExecuteResults(m, None);
            case Value(value) => HandleExecuteResults(m, Some(value));
          }
      }
    }

    /** One turn of the loop: a restart, or a request between its busy and its idle status. */
    method HandleTurn(turn: Turn)
      modifies this, cell, external
      ensures Current() == Serve(old(Current()), turn, initialEngine)
      ensures iopub == old(iopub) + Block(old(Current()), turn)
      ensures replies == old(replies) + ReplyTo(old(Current()), turn)
    {
      match turn {
        case Restarted =>
          engine := initialEngine;
          konst := None;
        case Answered(m) =>
          iopub := iopub + [StatusOf(m, true)];
          replies := replies + [Answer(m, if m.content.KernelInfo? then KernelInfoReply else IsCompleteReply)];
          iopub := iopub + [StatusOf(m, false)];
        case Executed(m, ev) =>
          iopub := iopub + [StatusOf(m, true)];
          HandleExecuteRequest(m, ev);
          iopub := iopub + [StatusOf(m, false)];
      }
    }

    /** The handler is, and has published and replied, what these turns amount to. */
    ghost predicate IsAfter(turns: seq<Turn>)
      reads this, cell, external
    {
      && Current() == After(initialEngine, turns)
      && iopub == Transcript(initialEngine, turns)
      && replies == Replies(initialEngine, turns)
    }

    /** One more turn of a history. */
    method HandleNext(ghost done: seq<Turn>, turn: Turn)
      requires IsAfter(done)
      modifies this, cell, external
      ensures IsAfter(done + [turn])
    {
      HandleTurn(turn);
      History.AfterPlus(initialEngine, done, turn);
    }

    /** The loop over any history of turns: what it publishes, replies and becomes. */
    method Handle(turns: seq<Turn>)
      requires IsAfter([])
      modifies this, cell, external
      ensures IsAfter(turns)
    {
      ghost var done: seq<Turn> := [];
      for i := 0 to |turns|
        invariant done == turns[..i] && IsAfter(done)
      {
        HandleNext(done, turns[i]);
        done := done + [turns[i]];
      }
      assert done == turns;
    }
  }
}
