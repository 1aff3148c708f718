/** The values that the kernel's tasks exchange: headers, messages and their contents. */
module Protocol {

  datatype Option<+T> = None | Some(value: T)

  /** One byte; `Bytes` is one frame of a multipart message or one zmq identity. */
  type Byte = b: int | 0 <= b < 256
  type Bytes = seq<Byte>

  datatype Header = Header(
    msgId: string,
    session: string,
    username: string,
    date: string,
    msgType: string,
    version: string)

  datatype Message<+C> = Message(
    zmqIdentities: seq<Bytes>,
    header: Header,
    parentHeader: Option<Header>,
    metadata: string,
    content: C,
    buffers: seq<Bytes>)

  /** `Metadata::empty()` as JSON text. */
  const EMPTY_METADATA := "{}"

  datatype ShellRequest =
    | KernelInfo
    | Execute(body: string)
    | IsComplete(body: string)

  datatype ControlRequest =
    | ControlKernelInfo
    | Shutdown(restart: bool)
    | Interrupt

  datatype StreamName = Stdout | Stderr

  /** What a display shows: an error report, or a value rendered under a MIME filter. */
  datatype Data =
    | Report(text: string)
    | Rendered(value: string, filter: Option<string>)

  datatype Iopub =
    | Status(busy: bool)
    | DisplayData(data: Data)
    | ExecuteResult(executionCount: nat, data: Data)
    | Stream(name: StreamName, text: string)

  datatype ShellReply =
    | KernelInfoReply
    | ExecuteReply(executionCount: nat)
    | IsCompleteReply
    | ErrorReply(value: string, errorCount: Option<nat>)

  datatype ControlReply =
    | ControlKernelInfoReply
    | ShutdownReply(restart: bool)
    | InterruptReply

  type Request = Message<ShellRequest>
  type Control = Message<ControlRequest>
  type Pub = Message<Iopub>
  type Reply = Message<ShellReply>
  type ControlAnswer = Message<ControlReply>

  /** A message without the header that is minted when it is sent. */
  datatype Bare<+C> = Bare(zmqIdentities: seq<Bytes>, parentHeader: Option<Header>, content: C)

  function Strip<C>(m: Message<C>): Bare<C> {
    Bare(m.zmqIdentities, m.parentHeader, m.content)
  }

  /** An answer to `m`: its identities, and its header as the parent. */
  function Answer<C, D>(m: Message<C>, content: D): Bare<D> {
    Bare(m.zmqIdentities, Some(m.header), content)
  }

  /** A status message goes to every subscriber: it has no identities. */
  function StatusOf(m: Request, busy: bool): Bare<Iopub> {
    Bare([], Some(m.header), Status(busy))
  }

  /** Which shell request a message type announces; the body stays JSON text. */
  function ParseShell(msgType: string, body: string): Option<ShellRequest> {
    if msgType == "execute_request" then Some(Execute(body))
    else if msgType == "is_complete_request" then Some(IsComplete(body))
    else if msgType == "kernel_info_request" then Some(KernelInfo)
    else None
  }

  /** The reply type for a shell request type; `None` is the source's abort. */
  function ShellReplyType(requestType: string): Option<string> {
    if requestType == "kernel_info_request" then Some("kernel_info_reply")
    else if requestType == "execute_request" then Some("execute_reply")
    else if requestType == "is_complete_request" then Some("is_complete_reply")
    else None
  }

  /** Which control request a message type announces, with the restart flag that a shutdown's body holds. */
  function ParseControl(msgType: string, restart: bool): Option<ControlRequest> {
    if msgType == "kernel_info_request" then Some(ControlKernelInfo)
    else if msgType == "shutdown_request" then Some(Shutdown(restart))
    else if msgType == "interrupt_request" then Some(Interrupt)
    else None
  }

  /** The reply type for a control request type; `None` is the source's abort. */
  function ControlReplyType(requestType: string): Option<string> {
    if requestType == "kernel_info_request" then Some("kernel_info_reply")
    else if requestType == "shutdown_request" then Some("shutdown_reply")
    else if requestType == "interrupt_request" then Some("interrupt_reply")
    else if requestType == "debug_request" then Some("debug_reply")
    else None
  }

  function IopubType(content: Iopub): string {
    match content
    case Status(_) => "status"
    case DisplayData(_) => "display_data"
    case ExecuteResult(_, _) => "execute_result"
    case Stream(_, _) => "stream"
  }

  /** A request the shell accepts is one whose content was chosen by its own message type. */
  predicate Parsed(m: Request) {
    match m.content
    case KernelInfo => m.header.msgType == "kernel_info_request"
    case Execute(body) => ParseShell(m.header.msgType, body) == Some(m.content)
    case IsComplete(body) => ParseShell(m.header.msgType, body) == Some(m.content)
  }

  /** A request that control takes has the content that its own message type announces. */
  predicate ParsedControl(c: Control) {
    ParseControl(c.header.msgType, c.content.Shutdown? && c.content.restart) == Some(c.content)
  }
}
