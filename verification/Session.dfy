/** The shell handler's own state and what serving one request does to it, sequentially. */
module Session {
  import opened Protocol
  import Decimal

  datatype Decl = RunExternal | Defined(name: string)

  datatype External = Disabled | JustEnabled | AlreadyEnabled

  datatype Cell = Cell(execution: nat, retry: nat)

  /** The value of `$nuju`: the request being executed and the name of its cell. */
  datatype Konst = Konst(cellName: string, request: Request)

  datatype Session = Session(
    engine: seq<Decl>,
    konst: Option<Konst>,
    cell: Cell,
    external: External,
    filter: Option<string>)

  /** What the code of a cell does to the kernel while it runs, besides writing to its streams. */
  datatype Effect =
    | Print(value: string, format: Option<string>)
    | Display(mime: string)
    | EnableExternal

  datatype Result = Failed(error: string) | Nothing | Value(value: string)

  /** How the engine took a cell: rejected by parser or compiler, or merged and evaluated. */
  datatype Evaluation =
    | Rejected(error: string)
    | Ran(names: seq<string>, effects: seq<Effect>, result: Result)

  /** One turn of the shell loop. */
  datatype Turn =
    | Executed(m: Request, ev: Evaluation)
    | Answered(m: Request)
    | Restarted

  function Fresh(initial: seq<Decl>): Session {
    Session(initial, None, Cell(1, 1), Disabled, None)
  }

  // ----- the single steps -----

  function ApplyExternal(s: Session): Session {
    if s.external == JustEnabled
    then s.(engine := s.engine + [RunExternal], external := AlreadyEnabled)
    else s
  }

  /** Start of an execute request: `External::apply`, `Cell::next_name`, `Konst::update`. */
  function Begin(s: Session, m: Request): Session {
    var t := ApplyExternal(s);
    t.(konst := Some(Konst(Decimal.CellName(t.cell.execution, t.cell.retry), m)),
       cell := t.cell.(retry := t.cell.retry + 1))
  }

  function Define(names: seq<string>): seq<Decl> {
    seq(|names|, i requires 0 <= i < |names| => Defined(names[i]))
  }

  function Commit(s: Session, names: seq<string>): Session {
    s.(engine := s.engine + Define(names))
  }

  /** `fetch_max(JustEnabled)` */
  function Raise(e: External): External {
    if e == Disabled then JustEnabled else e
  }

  function Perform(s: Session, effect: Effect): Session {
    match effect
    case Print(_, _) => s
    case Display(mime) => s.(filter := Some(mime))
    case EnableExternal => s.(external := Raise(s.external))
  }

  function Succeed(s: Session): Session {
    s.(cell := Cell(s.cell.execution + 1, 1))
  }

  function TakeFilter(s: Session): Session {
    s.(filter := None)
  }

  /** A restart gives back the initial engine and stack, and nothing else. */
  function Restart(s: Session, initial: seq<Decl>): Session {
    s.(engine := initial, konst := None)
  }

  // ----- whole turns -----

  function Play(s: Session, effects: seq<Effect>): (t: Session)
    ensures t.engine == s.engine && t.konst == s.konst && t.cell == s.cell
  {
    if effects == [] then s
    else Perform(Play(s, effects[..|effects| - 1]), effects[|effects| - 1])
  }

  function Conclude(s: Session, result: Result): Session {
    match result
    case Failed(_) => s
    case Nothing => Succeed(s)
    case Value(_) => TakeFilter(Succeed(s))
  }

  function Serve(s: Session, turn: Turn, initial: seq<Decl>): Session {
    match turn
    case Executed(m, Rejected(_)) => Begin(s, m)
    case Executed(m, Ran(names, effects, result)) =>
      Conclude(Play(Commit(Begin(s, m), names), effects), result)
    case Answered(_) => s
    case Restarted => Restart(s, initial)
  }

  /** What `nuju print` publishes: it answers the request that `$nuju` holds. */
  function Printed(konst: Konst, effect: Effect): seq<Bare<Iopub>> {
    match effect
    case Print(value, format) => [Answer(konst.request, DisplayData(Rendered(value, format)))]
    case _ => []
  }

  function AllPrinted(konst: Konst, effects: seq<Effect>): seq<Bare<Iopub>> {
    if effects == [] then []
    else AllPrinted(konst, effects[..|effects| - 1]) + Printed(konst, effects[|effects| - 1])
  }

  function Concluding(s: Session, m: Request, result: Result): seq<Bare<Iopub>> {
    match result
    case Failed(error) => [Answer(m, DisplayData(Report(error)))]
    case Nothing => []
    case Value(v) => [Answer(m, ExecuteResult(s.cell.execution, Rendered(v, s.filter)))]
  }

  /** The messages a turn publishes between its busy and its idle status. */
  function Outputs(s: Session, turn: Turn): seq<Bare<Iopub>> {
    match turn
    case Executed(m, Rejected(error)) => [Answer(m, DisplayData(Report(error)))]
    case Executed(m, Ran(names, effects, result)) =>
      var t := Commit(Begin(s, m), names);
      AllPrinted(t.konst.value, effects) + Concluding(Play(t, effects), m, result)
    case _ => []
  }

  function ReplyContent(s: Session, turn: Turn): Option<ShellReply> {
    match turn
    case Executed(_, Rejected(error)) => Some(ErrorReply(error, Some(s.cell.execution)))
    case Executed(_, Ran(_, _, Failed(error))) => Some(ErrorReply(error, Some(s.cell.execution)))
    case Executed(_, Ran(_, _, _)) => Some(ExecuteReply(s.cell.execution))
    case Answered(m) => Some(if m.content.KernelInfo? then KernelInfoReply else IsCompleteReply)
    case Restarted => None
  }

  function Block(s: Session, turn: Turn): seq<Bare<Iopub>> {
    if turn.Restarted? then []
    else [StatusOf(turn.m, true)] + Outputs(s, turn) + [StatusOf(turn.m, false)]
  }

  function ReplyTo(s: Session, turn: Turn): seq<Bare<ShellReply>> {
    match ReplyContent(s, turn)
    case None => []
    case Some(content) => [Answer(turn.m, content)]
  }

  // ----- whole histories -----

  function After(initial: seq<Decl>, turns: seq<Turn>): Session {
    if turns == [] then Fresh(initial)
    else Serve(After(initial, turns[..|turns| - 1]), turns[|turns| - 1], initial)
  }

  /** Everything the shell publishes over a history. */
  function Transcript(initial: seq<Decl>, turns: seq<Turn>): seq<Bare<Iopub>> {
    if turns == [] then []
    else
      var before := turns[..|turns| - 1];
      Transcript(initial, before) + Block(After(initial, before), turns[|turns| - 1])
  }

  function Replies(initial: seq<Decl>, turns: seq<Turn>): seq<Bare<ShellReply>> {
    if turns == [] then []
    else
      var before := turns[..|turns| - 1];
      Replies(initial, before) + ReplyTo(After(initial, before), turns[|turns| - 1])
  }

  /** The requests among the turns, in order. */
  function Requests(turns: seq<Turn>): seq<Request> {
    if turns == [] then []
    else
      var last := turns[|turns| - 1];
      Requests(turns[..|turns| - 1]) + if last.Restarted? then [] else [last.m]
  }
}
