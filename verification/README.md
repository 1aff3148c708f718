# A verified model of nu-jupyter-kernel

nu-jupyter-kernel is a Jupyter kernel for nushell (messaging protocol 5.4) with a plotting plugin. This project
models its core in Dafny and proves properties of the model, each for all inputs, all histories or all reachable
states.

- **The kernel as a concurrent step system.** The shell, control, iopub and heartbeat tasks and the two stream
  reader threads interleave freely over a queue of capacity 1, a shutdown broadcast of capacity 1, one interrupt
  flag, a locked pair per stream and one message counter (`Kernel`). A run is any sequence of enabled steps; what
  nushell does with a cell is a nondeterministic outcome. `Session` is the sequential meaning of one turn of the
  shell loop and `History` what every history of turns keeps. `Refinement` shows step by step that every
  interleaving publishes, replies and changes the session exactly as the sequential history of its turns.
  `Streams`, `Interrupts`, `Broadcasts`, `Controls`, `Identifiers` and `Envelopes` add one inductive invariant per
  concern, `Runs` puts them together, `Theorems` states what they mean for every reachable state, `Progress` bounds
  how long things take, `Shown` says what every turn publishes and answers, read off the turns alone, `Shutdowns`
  which broadcasts a loop survives, `LazyResults` what the effects of a lazy value do, `Cuts` when a stream read
  aborts, and `Late` when a stream message comes after the idle status of its request. `Histories` is the converse
  of the refinement: every history of turns is that of some run.
- **The same code in its own form.** `Handler` (counters, the external switch, the handler object), `Reader` (the
  nested read loops of a stream thread) and `Loops` (the select loops of iopub and heartbeat) are imperative, and
  their methods are proved against the specifications above.
- **The wire protocol.** `Multipart` prints frames and parses them, over `Json` (section 7 of RFC 8259) and `Utf8`
  (section 3 of RFC 3629). `Decimal` prints counters.
- **Rendering** under a MIME filter (`Render`).
- **The plotting plugin.** `Float64` is binary64 rounding to nearest, ties to even (section 4.3.1 of
  IEEE 754-2019), on reals; `Coord` the mixed integer and float coordinates; `SeriesInput` the conversion of lists;
  `Chart` the range loops of series and charts; `Draw` ticks and bars.
- **The environment file** (`Environment`): one source text with a span into it for every variable.

`dafny verify dfyconfig.toml` checks the whole project.

## Where the code differs from its own description, or from what one might expect

The model follows the code; each of these is a lemma.

- `commands.toml` calls `nuju external` irreversible for all subsequent cells. A restart takes the engine back to
  its initial declarations but leaves the switch at "already enabled", so after a restart no cell can ever bring
  external commands back: `History.ExternalLostByRestart` (in a run: `Histories.ExternalLossHappens`), and `History.ExternalAvailable` for the exact condition.
- `commands.toml` says `nuju display` applies to the current cell. The filter is only taken when a cell succeeds
  with a value, so a failing cell's filter is applied to a later cell's result: `History.FilterLeaks` (in a run:
  `Histories.FilterLeakHappens`), and
  `History.FilterIsOwn` for the exact condition.
- Two broadcasts before the shell looks, for example during one cell, make its next receive fail, and that ends its
  loop even if both ask for a restart: `Shutdowns.TwoRestartsEndTheShell`, and `Shutdowns.RestartSurvivedIff` for the
  exact condition. `Shutdowns.LoopGoesOnIff` says the same of all three loops, and `Shutdowns.RestartsEndByLag` that
  this is the only way in which restarts end a loop.
- An interrupt of an idle kernel is not answered, and the control socket answers nothing else, until some later
  execution ends: `Progress.InterruptWaits`, from the state in `Histories.IdleInterruptPolls`.
- Stream messages are not ordered against idle statuses: from every quiet state after a cell a text can still be
  published that names the cell's request (`Late.StreamAfterIdle`, with `Late.QuietAfterCell` for such a state).
  `Late.TextIsLateIff` says exactly when a text comes behind the idle status of the request it names.
- A stream read that stops inside a code point aborts the process: `Cuts.CutAborts` says exactly when, whatever the
  writer still adds, `Cuts.HalfCharacterAborts` shows it for the first byte of a two-byte character, and
  `Cuts.ReadAborts` and `Cuts.EndAborts` give the condition for bytes that are no UTF-8 at all, too.
- The filter's lock is held while a value is collected, and a value may be a lazy stream whose code runs only then. A
  `nuju display` in it waits for the lock that its own rendering holds, and the shell hangs for good:
  `LazyResults.LazyDisplayHangs` and `LazyResults.HungForGood`.
- A `nuju print` in a lazy value sends blockingly from inside the async task that renders, which aborts the process
  before any text is rendered: `LazyResults.LazyPrintAborts` and `LazyResults.PrintAborts`. `LazyResults.RenderingOutcome`
  says exactly when either happens, and `Progress.TurnEndsWithinRank` bounds the turn of a value that does neither.
- A chart whose first series is empty has no computed range, although later series have points, and drawing it
  aborts: `Chart.ChartRangeIsHull`, `Draw.DrawAbortsIff`.
- A list that starts with a record may mix records and pairs; one that starts with a pair may not:
  `SeriesInput.MixedListsDependOnTheFirst`.

## Model

| member | source | states |
|---|---|---|
| `Kernel.Publish` | src/handlers/shell.rs:88-98 | Sending to iopub takes the next message number and waits for the queue; nothing owned by another task, no log and no counter but that one changes. |
| `Kernel.Noticed` | src/handlers/shell.rs:49-63 | Receiving a restart keeps the shell listening and is one more turn; receiving anything else (no restart, lag, sender gone) ends it for that reason and is no turn. Nothing else but its session changes. |
| `Kernel.Offered` | src/handlers/shell.rs:245-248 | A stopped iopub task makes the process abort and changes nothing else; otherwise the waiting message goes to the end of the queue, and handing over the idle status is what completes a turn. |
| `Kernel.Dispatched` | src/handlers/shell.rs:73-82 | An execute request begins an execution, any other goes straight to its reply as an answered turn; nothing is replied or minted yet. |
| `Kernel.Finished` | src/handlers/shell.rs:214-287 | An evaluation that fails or gives nothing records the turn with its declarations, effects and result; nothing leads to the reply, a failure to one message that waits for the queue before it. |
| `Kernel.RenderBegun` | src/handlers/shell.rs:285-298 | A value moves the counter and takes the filter before anything of it is rendered; the count and the filter it will be shown with are those from before. |
| `Kernel.Unfolded` | src/nu/render.rs:154-156 | Collecting a value performs its next effect, which counts among the cell's, and leaves the rest to do. |
| `Kernel.Shown` | src/handlers/shell.rs:303-326 | A rendered value records the turn with all effects of the cell, and its result waits for the queue before the reply. |
| `Kernel.Replied` | src/handlers/shell.rs:323-341 | Exactly one reply, that of the request being served, is appended to the log; an information request goes on to its idle status, an execution to the signal reset. |
| `Kernel.SignalsReset` | src/handlers/shell.rs:207-209 | The execution counts as ended, the flag is down, and if it was up this execution is recorded as the one that cleared it. |
| `Kernel.ShellApply` | src/handlers/shell.rs:44-86 | Which step of the shell may change which shared piece: the queue only by handing over, the pairs only by updating them, the flag only by the reset. |
| `Kernel.ControlApply` | src/handlers/control.rs:14-36 | Control changes nothing of the other tasks; receiving a request records it, and answering takes one message number and appends exactly the reply to the request being answered. |
| `Kernel.ReaderApply` | src/handlers/stream.rs:36-70 | A reader changes only its own stream, takes a message number only when it takes the pair, and touches the queue only when it posts. |
| `Refinement.StepRefines` | src/handlers/shell.rs:44-86 | Every step of every task keeps the whole system equal to the sequential history of its completed turns plus the current turn up to its program counter. |
| `Refinement.IopubKeepsPipeline` | src/handlers/mod.rs:14-28 | What the iopub task moves stays in order: published, in hand and queued messages together never change. |
| `Runs.StepInv` | src/main.rs:149-207 | The conjunction of all invariants is kept by every enabled step of every task. |
| `Runs.StepKeepsExecutesOfTurns` | src/handlers/shell.rs:181-190 | Every step keeps the executions begun equal to those of the completed turns and the current one, in order. |
| `Runs.Always` | src/main.rs:135-208 | The invariant holds in every reachable state of the system, from any initial engine, session name and clock. |
| `Theorems.ConcurrentIsSequential` | src/handlers/shell.rs:44-86 | In every interleaving, whenever no request is served, session, non-stream iopub messages, replies and accepted requests are those of the sequential history. |
| `Histories.EveryHistoryHappens` | src/handlers/shell.rs:44-86 | Every history of turns that the shell takes is that of a reachable state in which all tasks wait. |
| `Histories.SequentialIsConcurrent` | src/handlers/shell.rs:44-86 | The session, transcript and replies of any such history are those of some run. |
| `Histories.FilterLeakHappens` | src/handlers/shell.rs:287-298 | A run whose iopub log holds a result shown with an earlier failing cell's filter. |
| `Histories.ExternalLossHappens` | src/handlers/shell.rs:57-62 | A run after which the switch says already enabled and the engine has no external commands. |
| `Histories.IdleInterruptPolls` | src/handlers/control.rs:77-88 | A run in which an idle kernel polls for an interrupt. |
| `Theorems.PublishedInBlocks` | src/handlers/shell.rs:71-84 | Apart from streams the iopub log is whole blocks busy, outputs, idle, back to back and in request order, followed by part of one block that starts busy, has no idle and answers only the request being served. |
| `Theorems.IdleMeansAnswered` | src/handlers/shell.rs:71-84 | Each published idle status closes the block of its own request; everything before it is whole blocks, and all their replies were sent. |
| `Theorems.OneReplyEach` | src/handlers/shell.rs:168-212 | Every accepted request has the content its type announces and exactly one reply, sent before the next request is taken, with its identities, its header as parent, the kind asked for, and the type `<stem>_reply` for a request of type `<stem>_request`. |
| `Theorems.OneControlReplyEach` | src/handlers/control.rs:14-101 | Control answers one request after the other: the i-th reply has the i-th request's identities, its header as parent, the content of its kind (a shutdown repeats the restart flag), and the type `<stem>_reply` for `<stem>_request`. |
| `Theorems.BroadcastsAreRequests` | src/handlers/control.rs:19-62 | What was broadcast is what the shutdown requests asked for, in order; nothing is taken behind one without restart, and the control task is over exactly when one was answered. |
| `Controls.StepKeepsControls` | src/handlers/control.rs:14-101 | Every step of every task keeps requests, replies, broadcasts and the state of the control task in step. |
| `Theorems.PubsAreTyped` | src/jupyter/messages/mod.rs:72-92 | Every iopub message names the session, the user `nu_kernel` and version 5.4, has an id `<session>:<number>` with a number already given out, empty metadata, no buffers and the type of its content; statuses have no identities. |
| `Theorems.RepliesAreStamped` | src/jupyter/messages/mod.rs:72-92 | Replies on both reply sockets name the same session, user and version, have such ids, empty metadata and no buffers. |
| `Theorems.QueueHoldsOne` | src/main.rs:149 | At most one message waits between the producers and the iopub task. |
| `Envelopes.StepKeepsEnvelopes` | src/jupyter/messages/iopub.rs:26-38 | Every step of every task keeps headers, metadata, buffers and types of all messages, wherever they are, and the bound of the queue. |
| `Envelopes.MintedNow` | src/jupyter/messages/mod.rs:79 | Whatever message a step mints carries the clock's date at that step. |
| `Theorems.CountsOfReplies` | src/handlers/shell.rs:134-139 | Over every run, restarts included, the successful execute replies carry exactly 1, 2, 3, ... |
| `Theorems.CountsOfErrors` | src/handlers/shell.rs:250-255 | In every run each error reply carries one more than the number of successful replies before it. |
| `Theorems.FlagOnlyWhilePolling` | src/handlers/control.rs:82-88 | The flag is up only while control polls for the one interrupt that it has not answered yet. |
| `Theorems.InterruptsMatchExecutions` | src/handlers/control.rs:77-101 | The i-th interrupt reply belongs to an execution of its own, which ended after that interrupt's store and before the next one's. |
| `Theorems.InterruptsAreBounded` | src/handlers/control.rs:77-101 | Interrupt replies never outnumber the executions that ended. |
| `Interrupts.StepKeepsInterrupts` | src/handlers/control.rs:82-88 | Every step keeps the handshake between stores and clears of the flag. |
| `Interrupts.StepKeepsCompleted` | src/handlers/shell.rs:207-211 | Every step keeps ended executions equal to executed turns, plus the one that only owes its idle status. |
| `Theorems.LoopsEndForAReason` | src/handlers/shell.rs:55-63 | Heartbeat, iopub or shell loop ends only if a shutdown without restart was sent or that receiver missed a broadcast. |
| `Shutdowns.LoopGoesOnIff` | src/handlers/mod.rs:10-25 | A receive keeps each of the three loops going exactly if there is one new broadcast and it asks for a restart. |
| `Shutdowns.RestartSurvivedIff` | src/handlers/shell.rs:55-63 | With only restarts sent, the shell survives its next receive exactly if it missed none, and else ends by lag. |
| `Shutdowns.RestartsEndByLag` | src/handlers/shell.rs:63 | With only restarts sent, a loop that ended missed a broadcast. |
| `Shutdowns.TwoRestartsEndTheShell` | src/handlers/control.rs:53-75 | A reachable state of a fresh kernel in which two answered restart requests have ended the shell. |
| `Theorems.OneResetPerRestart` | src/handlers/shell.rs:57-62 | The shell has reset exactly once per broadcast it received before it stopped, and all of those asked for a restart. |
| `Broadcasts.StepKeepsBroadcasts` | src/main.rs:150-207 | Every step keeps what the three receivers know of the broadcasts, and that control leaves only after a shutdown without restart. |
| `Theorems.IdsAreDistinct` | src/jupyter/messages/mod.rs:73-90 | No two messages of the process have the same id, over all sockets and threads, while the counter does not wrap. |
| `Identifiers.StepKeepsIds` | src/jupyter/messages/mod.rs:73-90 | Every step keeps the ids in use equal, as a multiset, to the ids of the numbers given out. |
| `Theorems.StreamAttribution` | src/handlers/stream.rs:57-65 | Identities and parent of every stream message come from one update, never a torn pair; per stream the requests never go back, and no byte is attributed to a request before the one whose code wrote it. |
| `Theorems.StreamConservation` | src/handlers/stream.rs:36-51 | Emitted texts, the text in hand, the buffer and the unread bytes are the bytes written, in order; while the pipe is open no text is a multiple of 8192 bytes long. |
| `Theorems.StreamTexts` | src/handlers/stream.rs:52-56 | The texts of a stream concatenate to the decoding of all bytes they were cut from. |
| `Cuts.ReadAborts` | src/handlers/stream.rs:45-52 | For all bytes, a read that ends a text aborts the process exactly when the stream up to its end is not valid UTF-8. |
| `Cuts.EndAborts` | src/handlers/stream.rs:42-52 | At the end of the pipe the process aborts exactly when nothing is pending or the whole stream is not valid UTF-8. |
| `Cuts.CutAborts` | src/handlers/stream.rs:45-52 | If the bytes written so far can still be completed to valid UTF-8, a read that ends a text aborts the process exactly when it stops inside a code point of the completed bytes. |
| `Cuts.HalfCharacterAborts` | src/handlers/stream.rs:45-52 | A reachable state of a first cell that wrote the first byte of a character and would be valid with the second: reading that byte aborts. |
| `Streams.StepKeepsStream` | src/handlers/stream.rs:36-91 | Every step keeps attribution and conservation of both streams. |
| `Streams.StepKeepsDelivered` | src/handlers/stream.rs:66-69 | Every step keeps the messages of a stream in the pipeline equal to those it posted, in order. |
| `Late.StreamAfterIdle` | src/handlers/stream.rs:57-69 | From every quiet reachable state after a cell the run can go on to publish a text that names the cell's request, behind its idle status. |
| `Late.QuietAfterCell` | src/handlers/stream.rs:36-49 | Such quiet states are reached. |
| `Late.IdlesAnswerInOrder` | src/handlers/shell.rs:71-84 | The idle statuses that entered the queue answer the requests of the completed turns, one each and in order. |
| `Late.TextIsLateIff` | src/handlers/stream.rs:57-69 | A text enters the queue behind everything that is there, and behind the idle status of the request it names exactly if that request is one of a completed turn. |
| `Progress.BlockedMeansDraining` | src/handlers/mod.rs:14-19 | A producer that waits for the queue always has an enabled step of the iopub task that can let it go on. |
| `Progress.DrainingEnds` | src/handlers/mod.rs:14-28 | Every iopub step lowers a measure, drops nothing and reorders nothing. |
| `Progress.QueueDrains` | src/handlers/mod.rs:9-29 | In every interleaving without new messages and broadcasts the iopub task takes at most its rank of steps, and after one fewer every producer can hand over, also to a task that goes on. |
| `Progress.ShellStepsUnless` | src/handlers/shell.rs:71-84 | Inside a turn the shell can step exactly unless the value it renders is at a display, or a message waits for the queue. |
| `Progress.TurnsNeverStick` | src/handlers/shell.rs:71-84 | Inside a turn a shell whose value is not at a display can step, or the iopub task can step to let it. |
| `LazyResults.RenderingRuns` | src/nu/render.rs:154-156 | In every interleaving the shell works off the leading harmless effects of a value one after another. |
| `LazyResults.RenderingOutcome` | src/handlers/shell.rs:287-302 | For all lazy parts and interleavings, once the leading harmless effects are done the shell hangs iff a display is the first print or display, is at a print iff a print is, and comes to its text iff there is neither. |
| `LazyResults.PrintAborts` | src/nu/commands/print.rs:297-300 | A shell at a lazy print can do nothing but abort, with its text not rendered. |
| `LazyResults.HarmfulNeverShows` | src/handlers/shell.rs:287-302 | In no interleaving does a value that prints or displays while it is rendered come to its text. |
| `LazyResults.HungForGood` | src/handlers/shell.rs:288-302 | Once a value waits for the filter's lock, nothing is accepted, replied or ended in any continuation of the run. |
| `LazyResults.LazyDisplayHangs` | src/handlers/shell.rs:287-302 | A reachable state of a first cell whose lazy part displays and whose shell has no step left. |
| `LazyResults.LazyPrintAborts` | src/nu/commands/print.rs:297-300 | A reachable state of a first cell whose lazy part prints and whose only shell step aborts. |
| `Progress.EndingMovesOn` | src/handlers/shell.rs:202-212 | From rendering a harmless value on, every shell step lowers a rank towards result, reply, idle status and the next request. |
| `Progress.TurnEndsWithinRank` | src/handlers/shell.rs:202-212 | In every interleaving the shell takes at most four steps from the end of an evaluation until it listens again, and from the start of rendering a value that neither prints nor displays at most five more than it has effects. |
| `Progress.InterruptWaits` | src/handlers/control.rs:82-88 | Once an interrupt raised the flag, control answers nothing in any continuation of the run until an execution ends. |
| `Progress.ResetReleasesControl` | src/handlers/shell.rs:207-209 | The end of an execution lets the very next poll leave the loop. |
| `History.OutputsAnswerTheirRequest` | src/handlers/shell.rs:305-321 | Every output of a turn has its request's identities and header, and an execute result carries the count of its request's reply. |
| `History.PrintedAnswersKonst` | src/nu/commands/print.rs:130-143 | Everything a cell prints answers the request that `$nuju` holds. |
| `History.RepliesAnswerRequests` | src/handlers/shell.rs:73-82 | The i-th reply of any history answers the i-th request and is of its kind. |
| `History.BlockEndsIdle` | src/handlers/shell.rs:71-84 | A turn's block ends with its idle status and has no other. |
| `History.IdleEndsATurn` | src/handlers/shell.rs:71-84 | Any stretch of a transcript that ends idle consists of whole turns. |
| `History.CounterFollowsReplies` | src/handlers/shell.rs:285-326 | The counter moves exactly with the successful replies, which carry its value before the move. |
| `History.OkCountsAreConsecutive` | src/handlers/shell.rs:128-139 | Over any history the successful counts are 1, 2, 3, ... and the counter is one ahead. |
| `History.ErrorCounts` | src/handlers/shell.rs:250-255 | Over any history an error carries one more than the number of earlier successes. |
| `History.CellNamesNeverRepeat` | src/handlers/shell.rs:118-139 | Later cells have a lexicographically larger (execution, retry) pair and a different name, restarts included. |
| `Shown.CellIsNamed` | src/handlers/shell.rs:118-139 | A cell's name is `cell[i]#j`, with one more than the cells that succeeded before it and one more than the attempts since the last of them. |
| `Shown.KonstIsLastCell` | src/nu/konst.rs:35-49 | `$nuju` holds name and request of the last cell since the last restart. |
| `Shown.KonstIsForgotten` | src/handlers/shell.rs:57-62 | Behind a restart `$nuju` holds nothing until a cell begins. |
| `Shown.PrintsAreShown` | src/nu/commands/print.rs:112-143 | The i-th print of a cell is one display of exactly its value under its own format, to the request in `$nuju`. |
| `Shown.TurnPublishes` | src/handlers/shell.rs:71-84 | A request's block is its busy status, one message to its identities and header for each print, error or value of the turn, and its idle status; a value is a result with its own text, count and filter, anything else a display. |
| `Shown.TurnReplies` | src/handlers/shell.rs:250-341 | A turn's one reply goes back to its request: the error of the turn or a success, with one more than the successes before it. |
| `Shown.FilterIsWishOrPending` | src/handlers/shell.rs:287-298 | A result is shown under its own cell's last display, or else under the one that an earlier cell left. |
| `Shown.TranscriptShows` | src/handlers/shell.rs:214-342 | Over any history exactly what its turns print, report and give is published, in order. |
| `Shown.RepliesAreVerdicts` | src/handlers/shell.rs:250-341 | Over any history the replies say how its turns ended, in order. |
| `Shown.PublishedShows` | src/nu/commands/print.rs:112-143 | In every reachable state the iopub log shows, in order, a front of what the completed turns and the current one print, report and give, and nothing else. |
| `Shown.IdleMeansShown` | src/handlers/shell.rs:71-84 | In every run, everything that the turns up to an idle status show has been published before it, and nothing of later turns. |
| `Shown.RepliesTell` | src/handlers/shell.rs:250-341 | In every reachable state the i-th reply carries the error or the success of the i-th request's own turn, with its count. |
| `Decimal.CellNameInjective` | src/handlers/shell.rs:122-126 | `cell[i]#j` determines i and j. |
| `Decimal.ReadPrint` | src/handlers/shell.rs:122-126 | A printed number reads as itself. |
| `Decimal.NoLeadingZero` | src/handlers/shell.rs:122-126 | Only zero itself is printed with a zero in front. |
| `Decimal.MessageIdInjective` | src/jupyter/messages/mod.rs:75-78 | Within a session a message id determines its number. |
| `History.ExternalState` | src/nu/commands/external.rs:56-82 | The switch after any history: "already" once a cell began after an enabling cell, "just" if none did yet, else disabled. |
| `History.ExternalAddedOnce` | src/nu/commands/external.rs:73-82 | `run-external` is added in at most one turn of a process. |
| `History.EngineReplay` | src/nu/mod.rs:123-157 | The engine is always the initial one plus, in order, the contributions of the turns since the last restart; rejected cells contribute no declaration of their own. |
| `History.ServeContributes` | src/nu/mod.rs:123-154 | One turn adds the external runner exactly if it is the first cell after an enabling one, and its own declarations exactly if it passed parser and compiler. |
| `Shown.DeclaredIff` | src/nu/mod.rs:123-157 | A name is declared exactly if it was from the start or a cell since the last restart that passed parser and compiler declared it. |
| `History.ExternalAvailable` | src/nu/commands/external.rs:73-82 | External commands are available exactly when the adding turn came after the last restart. |
| `History.ExternalAgreesUntilRestart` | src/nu/commands/external.rs:73-82 | Before any restart, the switch says "already enabled" exactly when the engine has the declaration. |
| `History.ExternalLostByRestart` | src/handlers/shell.rs:57-62 | A restart after the adding turn loses external commands for the rest of the process. |
| `History.PendingFilter` | src/handlers/shell.rs:287-302 | The pending filter is that of the last cell that displayed without a value being produced by it or since. |
| `History.FilterIsOwn` | src/handlers/shell.rs:287-298 | A result is rendered with its own cell's filter exactly when the cell displays or none is pending. |
| `History.FilterLeaks` | src/handlers/shell.rs:287-298 | A concrete failing cell whose filter is applied to the next cell's result. |
| `Handler.CellCounter.NextName` | src/handlers/shell.rs:122-126 | The name of the current pair; the pair grows. |
| `Handler.CellCounter.Success` | src/handlers/shell.rs:134-139 | The count before, the next execution with its first attempt after; the pair grows. |
| `Handler.ExternalSwitch.Enable` | src/nu/commands/external.rs:17-26 | Returns the old state, enables from disabled and never lowers. |
| `Handler.ShellHandler.AddExternal` | src/nu/commands/external.rs:73-82 | The declaration is added only from "just enabled", together with the switch. |
| `Handler.ShellHandler.BeginExecute` | src/handlers/shell.rs:181-186 | The start of an execute request as a function of the session before. |
| `Handler.ShellHandler.Evaluate` | src/nu/commands/print.rs:130-143 | The effects of a running cell, in order: prints go out under the request in `$nuju`, displays replace the filter, enabling only raises the switch. |
| `Handler.ShellHandler.HandleExecuteError` | src/handlers/shell.rs:214-277 | One report to iopub and one error reply with the current count; the session is untouched. |
| `Handler.ShellHandler.HandleExecuteResults` | src/handlers/shell.rs:279-342 | Session, outputs and reply of a success, with the pending filter taken only for a value. |
| `Handler.ShellHandler.HandleExecuteRequest` | src/handlers/shell.rs:168-212 | A whole execution equals the sequential turn: session, outputs and reply. |
| `Handler.ShellHandler.HandleTurn` | src/handlers/shell.rs:48-85 | One iteration of the loop: a reset, or a request between its busy and its idle status. |
| `Handler.ShellHandler.Handle` | src/handlers/shell.rs:44-86 | The loop over any turns ends in the sequential history's session, transcript and replies. |
| `Loops.Handle` | src/handlers/mod.rs:9-29 | Every message up to the first broadcast that is not a restart is sent on, in order and once, and nothing after it is taken. |
| `Reader.Pipe.Read` | src/handlers/stream.rs:40-49 | What a read of the pipe gives: up to a buffer of the oldest bytes, none exactly when there are none left. |
| `Reader.StreamReader.ReadText` | src/handlers/stream.rs:38-50 | The inner loop returns the oldest bytes and leaves the rest; it ends a text only at a short read or at the end of the pipe. |
| `Reader.StreamReader.Run` | src/handlers/stream.rs:37-70 | The outer loop conserves all bytes in order, each text is the decoding of its cut, and it stops only blocked, dead or on invalid UTF-8. |
| `Utf8.DecodeEncode` | src/jupyter/messages/multipart.rs:35-38 | Decoding undoes encoding for every string. |
| `Utf8.EncodeDecode` | src/jupyter/messages/mod.rs:142-144 | Encoding undoes decoding for every valid byte sequence. |
| `Utf8.DecodeAppend` | src/handlers/stream.rs:52 | Behind a valid text, decoding goes on as if it had started there. |
| `Utf8.CutIsValidIffBoundary` | src/handlers/stream.rs:52 | Cutting valid bytes leaves a valid front exactly at a code point boundary. |
| `Json.ReadEscaped` | src/jupyter/messages/multipart.rs:21 | Any string survives JSON escaping and reading, whatever follows it. |
| `Json.ReadPrintedObject` | src/jupyter/messages/multipart.rs:21 | A printed object reads back as its members, whatever names and values they have. |
| `Json.HeaderHasItsMembers` | src/jupyter/messages/mod.rs:62-70 | Whoever reads a printed header as an object finds `msg_id`, `session`, `username`, `date`, `msg_type` and `version`, each with its own field, and nothing else. |
| `Json.HeaderRoundTrip` | src/jupyter/messages/mod.rs:148-149 | A header survives printing and reading by field names, so its encoding is injective. |
| `Json.HeaderIsNotEmpty` | src/jupyter/messages/multipart.rs:22-25 | No header prints as the text that stands for a missing parent. |
| `Multipart.Digest` | src/jupyter/messages/multipart.rs:34-40 | Feeding the digester text by text signs the concatenation of the four texts in frame order. |
| `Multipart.IntoMultipart` | src/jupyter/messages/multipart.rs:19-54 | Identities, delimiter, signature, the four texts and the buffers, in this order, are the specified frames of the message. |
| `Multipart.SignatureCoversTexts` | src/jupyter/messages/multipart.rs:34-40 | The frame after the delimiter signs exactly the four frames after it, in their order. |
| `Multipart.FrameLayout` | src/jupyter/messages/multipart.rs:19-54 | The position of every part: identities, `<IDS|MSG>`, signature, header, parent header or `{}`, metadata, content, buffers. |
| `Multipart.HeaderFrames` | src/jupyter/messages/multipart.rs:21-25 | The frames of header and parent header decode to objects with exactly the six members of their headers. |
| `Multipart.DelimiterText` | src/jupyter/messages/mod.rs:135 | The delimiter's bytes are the encoding of its nine characters. |
| `Multipart.Recv` | src/jupyter/messages/mod.rs:129-183 | The scan for the delimiter and the reads after it give the specified result for every list of frames, malformed ones included, and for any JSON parsers. |
| `Multipart.FrameIterator.NextString` | src/jupyter/messages/mod.rs:142-144 | The next frame as text, or the abort for a missing frame or invalid UTF-8. |
| `Multipart.FramesRoundTrip` | src/jupyter/messages/mod.rs:129-183 | With any parsers that read printed headers back, reading printed frames gives the message back exactly when no identity is the delimiter. |
| `Multipart.CompactReadsHeaders` | src/jupyter/messages/mod.rs:148-155 | A reader of headers in their printed form is such a parser. |
| `Multipart.FramesInjective` | src/jupyter/messages/multipart.rs:19-54 | Equal frames come from equal messages. |
| `Multipart.ParentRoundTrip` | src/jupyter/messages/mod.rs:151-155 | Both a parent header and its absence survive. |
| `Multipart.SplitAtDelimiter` | src/jupyter/messages/mod.rs:133-139 | The scan stops at the delimiter, or earlier if an identity is one. |
| `Multipart.ReceivedConserves` | src/jupyter/messages/mod.rs:133-182 | Every frame of an accepted list is an identity, the delimiter, one of five texts or a buffer, in order. |
| `Multipart.ReceivedIff` | src/jupyter/messages/mod.rs:129-183 | A list of frames is read as a message exactly if each of its parts stands in its place around the first delimiter and parses to the message's part. |
| `Multipart.ShellTypes` | src/jupyter/messages/shell.rs:13-24 | The shell takes execute, is-complete and kernel-info requests, whose bodies must parse, and no other type. |
| `Multipart.IncompleteAborts` | src/jupyter/messages/mod.rs:142-144 | Without a delimiter, or with fewer than five frames after it, reading aborts. |
| `Multipart.ReceivedIsParsed` | src/jupyter/messages/shell.rs:13-50 | A request that reaches the shell has the content its type announces, so choosing its reply type cannot abort. |
| `Render.RenderValue` | src/nu/render.rs:144-261 | Plain text is always shown and required; of the other types exactly those that render and pass the filter. |
| `Render.UnknownFilterLeavesText` | src/nu/render.rs:177-258 | A filter for a type that nothing renders leaves the plain text alone. |
| `Float64.RoundMonotone` | crates/nu_plugin_plotters/src/value/coords/coord_1d.rs:34-39 | Converting to a float never reverses an order. |
| `Float64.RoundIsNearest` | crates/nu_plugin_plotters/src/value/coords/coord_1d.rs:36 | No binary64 number is nearer than the rounded one. |
| `Float64.NearestEvenNear` | crates/nu_plugin_plotters/src/value/coords/coord_1d.rs:36 | Of two equally near significands the even one is taken. |
| `Float64.RoundFixes` | crates/nu_plugin_plotters/src/value/coords/coord_1d.rs:36 | Rounding leaves every binary64 number alone. |
| `Float64.SmallIntegers` | crates/nu_plugin_plotters/src/value/coords/coord_1d.rs:36 | Integers up to 2^53 in magnitude convert exactly. |
| `Float64.RoundIsFinite` | crates/nu_plugin_plotters/src/value/coords/coord_1d.rs:24-32 | Rounding stays finite exactly below half a last place above the largest number. |
| `Float64.LeastPositive` | crates/nu_plugin_plotters/src/value/coords/coord_1d.rs:36 | 2^-1074 is the least positive number of the format. |
| `Coord.TotalPreorder` | crates/nu_plugin_plotters/src/value/coords/coord_1d.rs:96-122 | The order is total and transitive, and its equivalence is `Eq`. |
| `Coord.NeverReversed` | crates/nu_plugin_plotters/src/value/coords/coord_1d.rs:96-122 | Mixed comparison never reverses the order of the numbers themselves. |
| `Coord.SmallAgainstAny` | crates/nu_plugin_plotters/src/value/coords/coord_1d.rs:106-116 | An integer below 2^53 in magnitude compares exactly with every coordinate. |
| `Coord.FirstInexact` | crates/nu_plugin_plotters/src/value/coords/coord_1d.rs:34-39 | 2^53 + 1 rounds to 2^53. |
| `Coord.ExactOnIntegersIff` | crates/nu_plugin_plotters/src/value/coords/coord_1d.rs:96-122 | Comparison is exact on all integers up to a magnitude exactly when that magnitude is at most 2^53. |
| `Coord.ConversionIsNearest` | crates/nu_plugin_plotters/src/value/coords/coord_1d.rs:34-39 | An integer converts to a float that no binary64 number beats, a float to itself. |
| `Coord.ArithmeticIsNearest` | crates/nu_plugin_plotters/src/value/coords/coord_1d.rs:164-194 | Unless both operands are integers, sum and difference are the nearest floats to the exact ones. |
| `Coord.QuotientIsNearest` | crates/nu_plugin_plotters/src/value/coords/coord_1d.rs:196-204 | A quotient is the nearest float to the exact one, of integers too. |
| `Coord.IntegersWrap` | crates/nu_plugin_plotters/src/value/coords/coord_1d.rs:164-194 | Integers add and subtract exactly if the result fits in 64 bits, and modulo 2^64 otherwise. |
| `Coord.ExtremesKeepOne` | crates/nu_plugin_plotters/src/value/series_2d.rs:151 | The minimum keeps the first of two equal coordinates and the maximum the second; otherwise they are the smaller and the larger. |
| `Coord.LongerStep` | crates/nu_plugin_plotters/src/value/coords/coord_1d.rs:164-194 | Adding or subtracting a larger float reaches at least as far, after rounding. |
| `Coord.StepsAway` | crates/nu_plugin_plotters/src/value/coords/coord_1d.rs:164-194 | After rounding, no step down ends above its start and no step up below it. |
| `Coord.HalfStepIsFinite` | crates/nu_plugin_plotters/src/value/series_2d.rs:141 | Half a unit either side of a finite coordinate is finite. |
| `Coord.FloorAndCeil` | crates/nu_plugin_plotters/src/value/coords/coord_1d.rs:41-93 | Floor and ceiling keep all comparisons with integers inside the `i64` range, saturation included. |
| `SeriesInput.SeriesFromValue` | crates/nu_plugin_plotters/src/commands/series/mod.rs:11-60 | All values are read in the shape of the first; the points come in order, numbers get x = 0, 1, 2, ..., and one value of another shape is an error. |
| `SeriesInput.ConvertedPoints` | crates/nu_plugin_plotters/src/commands/series/mod.rs:27-54 | Numbers become the y values over x = 0, 1, 2, ..., pairs and records become x and y in this order, and behind a record a pair is still read as a pair. |
| `SeriesInput.FailsIff` | crates/nu_plugin_plotters/src/commands/series/mod.rs:27-54 | A list is an error exactly if some value does not read in the shape of the first. |
| `SeriesInput.MixedListsDependOnTheFirst` | crates/nu_plugin_plotters/src/commands/series/mod.rs:39-54 | Pairs behind a record are points, records behind a pair are an error. |
| `Chart.RangeOfSeries` | crates/nu_plugin_plotters/src/value/series_2d.rs:112-134 | The loop computes the specified range of a series for either axis. |
| `Chart.RangeOfChart` | crates/nu_plugin_plotters/src/value/chart_2d.rs:86-118 | The loop computes the specified range of a chart for either axis. |
| `Chart.SeriesRangeIsHull` | crates/nu_plugin_plotters/src/value/series_2d.rs:112-154 | A series has a range exactly when it has a point, and it is the least one that covers all its points, bars with their width and base. |
| `Chart.ChartRangeIsHull` | crates/nu_plugin_plotters/src/value/chart_2d.rs:86-118 | Without an explicit range, a chart has a range exactly when its first series has a point, and it is the hull of all points of all series. |
| `Chart.BarRangeX` | crates/nu_plugin_plotters/src/value/series_2d.rs:136-144 | A bar series' x range reaches from half a unit below its least x to half a unit above its greatest, rounded, and no further. |
| `Chart.BarRangeY` | crates/nu_plugin_plotters/src/value/series_2d.rs:146-154 | A bar series' y range reaches from the least to the greatest of zero and its y values, and no further. |
| `Chart.LineRange` | crates/nu_plugin_plotters/src/value/series_2d.rs:136-154 | A line's ranges reach from the least to the greatest of its coordinates, and no further. |
| `Chart.ChartRangeX` | crates/nu_plugin_plotters/src/value/chart_2d.rs:86-118 | In numbers, for several series: the x range covers all points of lines and all bars with half a unit on either side, and some point reaches each bound. |
| `Chart.ChartRangeY` | crates/nu_plugin_plotters/src/value/chart_2d.rs:86-118 | In numbers, for several series: the y range covers all points, and zero if there are bars, and some point or a bar's zero reaches each bound. |
| `Chart.GivenRangeWins` | crates/nu_plugin_plotters/src/value/chart_2d.rs:89-91 | An explicit range is the chart's range, whatever its series hold. |
| `Chart.RangeIsOrdered` | crates/nu_plugin_plotters/src/value/chart_2d.rs:111-115 | The minimum of a computed range is at most its maximum. |
| `Chart.OrderDoesNotMatter` | crates/nu_plugin_plotters/src/value/chart_2d.rs:93-109 | Charts with the same series in any order and number have equal ranges, if they have ranges. |
| `Chart.EmptyFirstSeriesHasNoRange` | crates/nu_plugin_plotters/src/value/chart_2d.rs:93-96 | With an empty series in front of a non-empty one there is no range; swapped there is one. |
| `Chart.GivenRangeReplaces` | crates/nu_plugin_plotters/src/commands/chart_2d.rs:259-274 | A range given when extending replaces the chart's own, which stays otherwise; the chart's series stay in front of the new ones. |
| `Chart.ExtendingWidens` | crates/nu_plugin_plotters/src/commands/chart_2d.rs:259-274 | Extending a chart that has a range keeps one that covers the old one. |
| `Draw.KeyPointsIncrease` | crates/nu_plugin_plotters/src/value/coords/range.rs:109-116 | Discrete key points are integers in strictly increasing order. |
| `Draw.KeyPointsAreTheIntegers` | crates/nu_plugin_plotters/src/value/coords/range.rs:109-116 | They are exactly the integers between the bounds, and below 2^53 exactly those that compare so. |
| `Draw.ComparedButNotAKeyPoint` | crates/nu_plugin_plotters/src/value/coords/range.rs:109-116 | At 2^53 an integer compares as inside a range without being a key point. |
| `Draw.IntegerRangeIsLeast` | crates/nu_plugin_plotters/src/value/coords/range.rs:144-148 | The integer range of a coordinate range is the least that encloses it. |
| `Draw.DrawAbortsIff` | crates/nu_plugin_plotters/src/commands/draw/mod.rs:20-27 | Without explicit ranges, drawing aborts exactly for no series or an empty first one. |
| `Draw.DrawnRanges` | crates/nu_plugin_plotters/src/commands/draw/mod.rs:24-38 | The axes have the chart's ranges; key points of the x axis become discrete with any bar, and with none the x range stays as it is. |
| `Draw.HalfWidthIsAtMostHalf` | crates/nu_plugin_plotters/src/commands/draw/mod.rs:122 | The rounded half width of a bar is between 0 and the 0.5 that the range allows for. |
| `Draw.HalfWidthInNumbers` | crates/nu_plugin_plotters/src/commands/draw/mod.rs:122 | Half of 0.8 is exactly 7205759403792794 / 2^54. |
| `Draw.CornersInNumbers` | crates/nu_plugin_plotters/src/commands/draw/mod.rs:121-126 | A bar's corners lie that half width left of its point, at its value, and right of it, at zero, after rounding. |
| `Draw.DrawnInsideTheChart` | crates/nu_plugin_plotters/src/commands/draw/mod.rs:121-126 | For all mixes of series, every point and every bar corner lies inside the computed range of its axis. |
| `Draw.IntegerBarsStandAtTicks` | crates/nu_plugin_plotters/src/commands/draw/mod.rs:29-38 | Every bar at an integer below 2^53 in magnitude, given as an integer or a float, stands at a tick of the computed x range. |
| `Draw.BarAtLimitMissesItsTick` | crates/nu_plugin_plotters/src/commands/draw/mod.rs:29-38 | The bound is sharp: behind a bar at 2^53 + 1, a bar at 2^53 stands at no tick of the computed range. |
| `Environment.SpansSliceValues` | src/nu/mod.rs:53-64 | Wherever the lines are put, every span lies inside them and slices exactly the quoted value, behind the name and the equals sign and in front of a line break. |
| `Environment.SpansIncrease` | src/nu/mod.rs:55-64 | The spans follow each other without touching. |
| `Environment.RebasedSlices` | src/nu/mod.rs:66-75 | Moving the file behind earlier sources and its spans with it leaves every slice the same. |
| `Environment.WriteLines` | src/nu/mod.rs:53-64 | In whatever order the map yields the variables, the running offset is the length of the text so far, and text and spans are those of that order. |
| `Environment.Engine.AddEnvContext` | src/nu/mod.rs:42-78 | Every variable is set, `PWD` to the current directory if there is one; its line in the new file is `name = quoted value`, its span slices the quoted value, spans of different variables are apart, and earlier sources and other variables are untouched. |

## Left out

- Sockets are append-only logs, pipe reads have any size from 1 to 8192 bytes, and a clock step sets any date; ZeroMQ, tokio, OS pipes, ports and kernel registration are not part of this model.
- The parser, compiler, evaluator and the `to ...` commands of nushell are outside the repository: a cell has any outcome, any declarations and any effects. A declaration is a name, and a delta that fails to merge counts as one that merged and failed at run time.
- Variables and other contents of the stack besides `$nuju` are not modelled; background jobs may write to a stream after their cell, but not print or display after it.
- Requests of an unknown type, which the shell skips, and messages that abort the process on arrival are results of `Multipart.Recv`; in the step system they are not steps.
- The values that a result shows inside the step system are symbolic (`Rendered(value, filter)`); which types are shown is `Render`, with the stack that the renderers share left out.
- The polling loop and the message loop of the control task are steps of the system and not methods with loops: whether polling ends depends on the other tasks.
- What the heartbeat echoes is not recorded.
- Counters are unbounded; the wrap-around of `usize` is not modelled.
- The signature is any function of the signed bytes; HMAC and hex are not modelled, and the code does not compare signatures on arrival either.
- Content and metadata of a message stay JSON text, and the parsers behind `serde_json` are parameters of which the round trip asks only that they read printed headers back. The reader in `Json`, which shows that this can be met, reads objects of strings in any order and with further members, but only in the compact form and without surrogate pairs.
- The selects of the loops are biased towards the shutdown broadcast. Because a broadcast can arrive between the two polls of one select, the step system allows either branch when both are ready, which has all runs of the code and more.
- Integer addition that overflows `i64` wraps, as without overflow checks; the assertions of debug builds are not modelled.
- Beyond the overflow threshold a float operation gives infinity; here it gives a real that is not a valid coordinate.
- `Coord1d::round`, index conversions, key points that are not discrete, pixel mapping, drawing backends, colours and the shorthand of margins are left out; so are the styling fields of series and charts.
- The engine keeps sources one after another and hands out spans by their total length; the rest of the engine state is not modelled. Quoting is any function.
- Command signatures, error reports, kernel info, the module span search and the connection file only format or read, and are left out.
